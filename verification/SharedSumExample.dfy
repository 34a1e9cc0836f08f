/** The average of the initial estimates does go wrong: a run of three drones, all links static and without loss, in
    which a neighbour's initialization ends after another neighbour has contributed to the shared sum.

    Drone 0 talks with drones 1 and 2, whose delays are 10 and 20 ticks. All clocks agree. In round r, drone 0 sends at
    100 r; drone e hears it 10 e later, sends at 100 r + 30 e and is heard at 100 r + 40 e. */
module SharedSumExample {
  import opened Config
  import opened NodeSpec
  import opened LossTolerance
  import opened ExactlyOnce
  import opened Phases
  import opened Pairing
  import opened Exactness
  import opened Protocol
  import opened ProtocolProof
  import opened ProtocolTheorems
  import opened SharedSum
  import opened Progress
  import opened Conversation

  function ExampleLinks(): Links { (e: nat) => Link(10 * e, 0) }

  function HubSends(h: nat): History { seq(h, i requires 0 <= i < h => Stamp(i + 1, 100 * (i + 1))) }

  function LeafSends(e: nat, f: nat): History { seq(f, i requires 0 <= i < f => Stamp(i + 1, 100 * (i + 1) + 30 * e)) }

  function HubHears(e: nat, b: nat): map<nat, nat> { map r: nat | 1 <= r <= b :: 100 * r + 40 * e }

  function LeafHears(e: nat, g: nat): map<nat, nat> { map r: nat | 1 <= r <= g :: 100 * r + 10 * e }

  /** What really happened between drone 0 and drone e: h and f messages sent, b and g of them heard. */
  function LeafTruth(e: nat, h: nat, g: nat, f: nat, b: nat): Truth {
    Truth(HubSends(h), LeafSends(e, f), HubHears(e, b), LeafHears(e, g))
  }

  lemma LeafLinkIsGood(e: nat, h: nat, g: nat, f: nat, b: nat)
    requires 1 <= e <= 2 && h <= 1000 && f <= 1000 && g <= 1000 && b <= 1000
    ensures GoodLink(LeafTruth(e, h, g, f, b), ExampleLinks()(e))
  {
    hide LeafTruth, Static, Within40Bits, NoCrossing;
    LeafLinkIsStatic(e, h, g, f, b);
    LeafTimesFit(e, h, g, f, b);
    LeafNoCrossing(e, h, g, f, b);
  }

  lemma LeafLinkIsStatic(e: nat, h: nat, g: nat, f: nat, b: nat)
    ensures Static(LeafTruth(e, h, g, f, b), ExampleLinks()(e))
  {
  }

  lemma LeafTimesFit(e: nat, h: nat, g: nat, f: nat, b: nat)
    requires 1 <= e <= 2 && h <= 1000 && f <= 1000 && g <= 1000 && b <= 1000
    ensures Within40Bits(LeafTruth(e, h, g, f, b))
  {
  }

  /** A message of drone 0 that left before message r of drone e arrived belongs to round r or an earlier one. */
  lemma LeafNoCrossing(e: nat, h: nat, g: nat, f: nat, b: nat)
    requires 1 <= e <= 2
    ensures NoCrossing(LeafTruth(e, h, g, f, b))
  {
    var t := LeafTruth(e, h, g, f, b);
    forall s, r | 1 <= s <= |t.mine| && s in t.theirHeard && 1 <= r <= |t.theirs| && r in t.myHeard
                  && t.mine[s - 1].time < t.myHeard[r]
      ensures t.theirHeard[s] < t.theirs[r - 1].time
    {
      assert 100 * s < 100 * r + 40 * e;
    }
  }

  /** How far drone 0 and drone e have come. */
  datatype Counts = Counts(h: nat, g: nat, f: nat, b: nat)

  ghost predicate Leaf(s: System, e: nat, c: Counts)
    requires |s| == 3 && Shaped(s) && 1 <= e <= 2
  {
    && c.b <= c.f <= c.g <= c.h <= c.b + 1 && c.h <= 1000
    && TruthOf(s[0], s[e], 0, e) == LeafTruth(e, c.h, c.g, c.f, c.b)
    && |s[0].sent| == c.h && |s[e].sent| == c.f && s[0].cursor[e] == c.b && s[e].cursor[0] == c.g
    && Conversed(s[0], e, c.b, c.b) && Seqs(Rl(s[e], 0)) == UpTo(c.g)
    && (forall nb <- s[e].node.neighbours :: nb.address == Addr(0))
    && |s[e].origin| == c.f
    && (c.f >= 1 ==> |s[e].origin[c.f - 1].processed| == 3 && s[e].origin[c.f - 1].processed[0] == c.f
                     && UnitTo(s[e].sent[c.f - 1].units, Addr(0)) != NULL_INDEX)
  }

  /** A reachable state between two actions, before time t. */
  ghost predicate Star(s: System, c1: Counts, c2: Counts, t: nat) {
    && |s| == 3 && Reachable(s) && Inv(s) && Shaped(s)
    && (forall d :: 0 <= d < 3 ==> s[d].pending.None? && s[d].inbox == [] && s[d].clock < t)
    && Leaf(s, 1, c1) && Leaf(s, 2, c2)
  }

  lemma {:induction false} RunThenStep(s: System, steps: seq<Step>, s': System, step: Step)
    requires IsRun(s, steps, s') && Shaped(s') && Enabled(s', step)
    ensures IsRun(s, steps + [step], Next(s', step))
    decreases |steps|
  {
    hide Next, Enabled, Shaped;
    if steps == [] {
      assert IsRun(Next(s, step), [], Next(s', step));
    } else {
      RunThenStep(Next(s, steps[0]), steps[1..], s', step);
      assert (steps + [step])[1..] == steps[1..] + [step];
    }
  }

  lemma ReachesNext(s: System, step: Step)
    requires Reachable(s) && Shaped(s) && Enabled(s, step)
    ensures Reachable(Next(s, step))
  {
    hide IsRun, Next, Enabled, InitialSystem;
    var n: nat, steps: seq<Step> :| IsRun(InitialSystem(n), steps, s);
    RunThenStep(InitialSystem(n), steps, s, step);
  }

  /** Distinct neighbours of one of three drones are at most two. */
  lemma TwoAddresses(nbs: seq<Neighbour>, d: nat)
    requires Distinct(nbs) && d < 3 && forall i :: 0 <= i < |nbs| ==> IsOther(nbs[i].address, d, 3)
    ensures |nbs| < 3
  {
    var addresses := set i | 0 <= i < |nbs| :: nbs[i].address;
    var others := {Addr(0), Addr(1), Addr(2)} - {Addr(d)};
    assert addresses <= others;
    DistinctCount(nbs);
    SubsetIsSmaller(addresses, others);
  }

  lemma {:induction false} DistinctCount(nbs: seq<Neighbour>)
    requires Distinct(nbs)
    ensures |set i | 0 <= i < |nbs| :: nbs[i].address| == |nbs|
    decreases |nbs|
  {
    var all := set i | 0 <= i < |nbs| :: nbs[i].address;
    if nbs == [] {
      assert all == {};
    } else {
      var k := |nbs| - 1;
      var front := nbs[..k];
      var some := set i | 0 <= i < |front| :: front[i].address;
      DistinctCount(front);
      assert all == some + {nbs[k].address};
    }
  }

  lemma {:induction false} SubsetIsSmaller(a: set<nat>, b: set<nat>)
    requires a <= b
    ensures |a| <= |b|
    decreases |a|
  {
    if a != {} {
      var x :| x in a;
      SubsetIsSmaller(a - {x}, b - {x});
    }
  }

  lemma RoomForAll(x: Drone, d: nat, e: nat)
    requires OwnInv(x, d, 3) && d < 3 && e < 3 && d != e
    ensures Room(x.node, Addr(e))
  {
    hide Numbered, MessageOk, SoundNode;
    var nbs := x.node.neighbours;
    assert Distinct(nbs);
    assert forall i :: 0 <= i < |nbs| ==> IsOther(nbs[i].address, d, 3);
    TwoAddresses(nbs, d);
  }

  // ---------------------------------------------------------------- the actions of a round

  ghost predicate SameTables(s: System, s': System) {
    |s| == |s'| == 3 && s'[0].node.neighbours == s[0].node.neighbours
  }

  lemma HubSpokeLeaf(s: System, s': System, e: nat, c: Counts, now: nat)
    requires |s| == |s'| == 3 && Shaped(s) && Shaped(s') && 1 <= e <= 2 && Leaf(s, e, c) && c.h == c.b < 1000
    requires Spoke(s, 0, s'[0], now) && s' == s[0 := s'[0]] && now == 100 * (c.h + 1)
    ensures Leaf(s', e, c.(h := c.h + 1))
  {
    hide Rl, Seqs, Woven, Pairs, Generate, OriginNow, UnitTo;
    RlOf(s[0], s'[0]);
    assert HubSends(c.h + 1) == HubSends(c.h) + [Stamp(c.h + 1, now)];
  }

  lemma HubSpeaks(s: System, c1: Counts, c2: Counts, t: nat, now: nat) returns (s': System)
    requires Star(s, c1, c2, t) && c1.h == c1.b == c2.b < 1000 && now == 100 * (c1.h + 1) >= t
    ensures Star(s', c1.(h := c1.h + 1), c2.(h := c2.h + 1), now + 1) && SameTables(s, s')
  {
    hide Inv, Leaf, Reachable, Spoke;
    assert c2.h == c1.h by { SameSends(s, c1, c2); }
    var s1: System;
    s1, s' := Speaks(s, 0, now);
    ReachesNext(s, GenerateStep(0));
    ReachesNext(s1, TransmitStep(0, now));
    HubSpokeLeaf(s, s', 1, c1, now);
    HubSpokeLeaf(s, s', 2, c2, now);
    assert s'[0].pending.None? && s'[0].inbox == [] && s'[0].clock == now by { SpokeShape(s, 0, s'[0], now); }
  }

  lemma SameSends(s: System, c1: Counts, c2: Counts)
    requires |s| == 3 && Shaped(s) && Leaf(s, 1, c1) && Leaf(s, 2, c2)
    ensures c1.h == c2.h
  {
  }

  lemma SpokeShape(s: System, d: nat, x': Drone, now: nat)
    requires Shaped(s) && d < |s| && Spoke(s, d, x', now)
    ensures x'.pending.None? && x'.inbox == s[d].inbox && x'.clock == now
  {
  }

  lemma LeafSpokeLeaf(s: System, s': System, e: nat, c: Counts, now: nat)
    requires |s| == |s'| == 3 && Inv(s) && Shaped(s) && Shaped(s') && 1 <= e <= 2 && Leaf(s, e, c) && c.f + 1 == c.g
    requires Spoke(s, e, s'[e], now) && s' == s[e := s'[e]] && now == 100 * (c.f + 1) + 30 * e
    ensures Leaf(s', e, c.(f := c.f + 1))
  {
    hide Inv, Rl, Seqs, Woven, Pairs, UnitTo, Generate;
    RlOf(s[e], s'[e]);
    NoGaps(Rl(s[e], 0), c.g);
    assert LeafSends(e, c.f + 1) == LeafSends(e, c.f) + [Stamp(c.f + 1, now)];
    OnlyHub(s, e, c);
    OnlyReport(s[e].node, Addr(0));
  }

  lemma OnlyHub(s: System, e: nat, c: Counts)
    requires |s| == 3 && Inv(s) && Shaped(s) && 1 <= e <= 2 && Leaf(s, e, c) && Rl(s[e], 0) != []
    ensures |s[e].node.neighbours| == 1 && s[e].node.neighbours[0].address == Addr(0)
  {
    hide Inv, OwnInv, Seqs, Conversed, UnitTo;
    OwnOf(s, e);
    OwnDistinct(s[e], e, 3);
    var nbs := s[e].node.neighbours;
    assert nbs != [];
    assert |nbs| > 1 ==> nbs[0].address == nbs[1].address;
  }

  lemma LeafSpeaks(s: System, e: nat, c1: Counts, c2: Counts, t: nat, now: nat) returns (s': System)
    requires Star(s, c1, c2, t) && 1 <= e <= 2 && now >= t
    requires var c := if e == 1 then c1 else c2; c.f + 1 == c.g && now == 100 * (c.f + 1) + 30 * e
    ensures Star(s', if e == 1 then c1.(f := c1.f + 1) else c1, if e == 2 then c2.(f := c2.f + 1) else c2, now + 1)
    ensures SameTables(s, s')
  {
    hide Inv, Leaf, Reachable, Spoke;
    var s1: System;
    s1, s' := Speaks(s, e, now);
    ReachesNext(s, GenerateStep(e));
    ReachesNext(s1, TransmitStep(e, now));
    LeafSpokeLeaf(s, s', e, if e == 1 then c1 else c2, now);
    LeafSame(s, s', 3 - e, if e == 1 then c2 else c1);
    SpokeShape(s, e, s'[e], now);
  }

  lemma LeafSame(s: System, s': System, e: nat, c: Counts)
    requires |s| == |s'| == 3 && Shaped(s) && Shaped(s') && 1 <= e <= 2 && Leaf(s, e, c) && s'[0] == s[0]
    requires s'[e] == s[e]
    ensures Leaf(s', e, c)
  {
    hide Rl, Seqs, Conversed, UnitTo;
  }

  /** Drone e after hearing the next message of drone 0. */
  lemma LeafHeardLeaf(s: System, s1: System, s2: System, e: nat, c: Counts, now: nat)
    requires |s| == |s1| == |s2| == 3 && Inv(s1) && Shaped(s) && Shaped(s1) && Shaped(s2)
    requires 1 <= e <= 2 && Leaf(s, e, c) && c.g < c.h && now == 100 * (c.g + 1) + 10 * e
    requires var m := s[0].sent[s[e].cursor[0]];
             && m.src == Addr(0) && m.seqNo == c.g + 1
             && s1 == s[e := Delivered(s[e], 0, m, now)] && s1[e].inbox == [Inbound(m, now)]
             && s2 == s[e := ProcessedNext(s1[e], 0, Known(s[0], m.seqNo, e))]
    requires HeardNext(s[e], s2[e], 0, now)
    ensures Leaf(s2, e, c.(g := c.g + 1))
  {
    hide Inv, OwnInv, PairInv, Outgoing, Process, Delivered, Rl, Seqs, Conversed, UnitTo, Known, Room, StaysClean;
    var m := s[0].sent[s[e].cursor[0]];
    DeliveredKeeps(s[e], 0, m, now);
    RlOf(s[e], s1[e]);
    OwnOf(s1, e);
    OwnOf(s1, 0);
    PairOf(s1, e, 0);
    OutgoingOf(s1, 0, e);
    RoomForAll(s1[e], e, 0);
    CleanNow(s1[e], s1[0], e, 0, 3, c.g);
    forall nb | nb in s2[e].node.neighbours
      ensures nb.address == Addr(0)
    {
      NeighboursAfterProcess(s1[e].node, s1[e].inbox[0], nb);
    }
    var before, after := LeafHears(e, c.g), LeafHears(e, c.g + 1);
    assert after == before[c.g + 1 := now];
    assert TruthOf(s2[0], s2[e], 0, e) == LeafTruth(e, c.h, c.g + 1, c.f, c.b);
  }

  lemma LeafHearsHub(s: System, e: nat, c1: Counts, c2: Counts, t: nat, now: nat) returns (s': System)
    requires Star(s, c1, c2, t) && 1 <= e <= 2 && now >= t
    requires var c := if e == 1 then c1 else c2; c.g < c.h && now == 100 * (c.g + 1) + 10 * e
    ensures Star(s', if e == 1 then c1.(g := c1.g + 1) else c1, if e == 2 then c2.(g := c2.g + 1) else c2, now + 1)
    ensures SameTables(s, s')
  {
    hide Inv, Leaf, Reachable, Delivered, ProcessedNext, Known, HeardNext;
    var c := if e == 1 then c1 else c2;
    LeafCursors(s, e, c);
    var s1: System;
    s1, s' := Hears(s, e, 0, now);
    ReachesNext(s, DeliverStep(e, 0, now));
    ReachesNext(s1, ProcessStep(e));
    LeafHeardLeaf(s, s1, s', e, c, now);
    LeafSame(s, s', 3 - e, if e == 1 then c2 else c1);
    HeardShape(s[e], s'[e], 0, now);
  }

  lemma LeafCursors(s: System, e: nat, c: Counts)
    requires |s| == 3 && Shaped(s) && 1 <= e <= 2 && Leaf(s, e, c)
    ensures s[e].cursor[0] == c.g && |s[0].sent| == c.h && s[0].cursor[e] == c.b && |s[e].sent| == c.f
  {
    hide Rl, Seqs, Conversed, UnitTo;
  }

  lemma HeardShape(x: Drone, x': Drone, d: nat, now: nat)
    requires d < |x.cursor| && d < |x.heard| && d < |x'.heard| && HeardNext(x, x', d, now)
    ensures x'.pending == x.pending && x'.inbox == [] && x'.clock == now
  {
  }

  /** What drone 0 knows of when a message it heard was sent: before its own next one. */
  lemma RoundsDoNotOverlap(s: System, e: nat, c: Counts)
    requires |s| == 3 && Inv(s) && Shaped(s) && 1 <= e <= 2 && Seqs(Rl(s[0], e)) == UpTo(c.b) && c.b < c.h
    requires s[0].node.history == HubSends(c.h) && s[0].heard[e] == HubHears(e, c.b + 1)
    ensures c.b < |s[0].node.history| && s[0].node.history[c.b].time > LastRx(Rl(s[0], e))
  {
    hide Inv, Rl, Seqs, OwnInv, Receiving, PushedOnce, QueuedPast, BuffersOk, SendListTrue, Tolerant;
    PairOf(s, 0, e);
    NoGaps(Rl(s[0], e), c.b);
    if c.b >= 1 { NewestIs(Rl(s[0], e)); }
  }

  /** Drone 0 after hearing the next message of drone e, as far as drone e is concerned. */
  lemma HubHeardLeaf(s: System, s1: System, s2: System, e: nat, c: Counts, now: nat)
    requires |s| == |s1| == |s2| == 3 && Inv(s1) && Shaped(s) && Shaped(s1) && Shaped(s2)
    requires 1 <= e <= 2 && Leaf(s, e, c) && c.b + 1 == c.f && now == 100 * (c.b + 1) + 40 * e
    requires var m := s[e].sent[s[0].cursor[e]];
             && m.src == Addr(e) && m.seqNo == c.b + 1
             && s1 == s[0 := Delivered(s[0], e, m, now)] && s1[0].inbox == [Inbound(m, now)]
             && s2 == s[0 := ProcessedNext(s1[0], e, Known(s[e], m.seqNo, 0))]
    requires HeardNext(s[0], s2[0], e, now)
    ensures Leaf(s2, e, c.(b := c.b + 1))
  {
    hide Inv, OwnInv, PairInv, Outgoing, Process, Rl, Seqs, Conversed, UnitTo, Room, StaysClean, GoodLink;
    var m := s[e].sent[s[0].cursor[e]];
    DeliveredKeeps(s[0], e, m, now);
    RlOf(s[0], s1[0]);
    ConversedSame(s[0], s1[0], e, c.b, c.b);
    ConversedList(s1[0], e, c.b);
    OwnOf(s1, e);
    OwnOf(s1, 0);
    PairOf(s1, e, 0);
    PairOf(s1, 0, e);
    OutgoingOf(s1, e, 0);
    RoomForAll(s1[0], 0, e);
    var before, after := HubHears(e, c.b), HubHears(e, c.b + 1);
    assert after == before[c.b + 1 := now];
    assert TruthOf(s1[0], s1[e], 0, e) == LeafTruth(e, c.h, c.g, c.f, c.b + 1);
    RoundsDoNotOverlap(s1, e, c);
    LeafLinkIsGood(e, c.h, c.g, c.f, c.b + 1);
    HearsNext(s1[0], s1[e], 0, e, 3, ExampleLinks()(e), c.b, c.b);
  }

  lemma ConversedList(x: Drone, e: nat, c: nat)
    requires Conversed(x, e, c, c)
    ensures Seqs(Rl(x, e)) == UpTo(c)
  {
    hide Rl, Seqs, Woven, Pairs;
  }

  /** Drone 0 after hearing drone e, as far as the other drone is concerned. */
  lemma HubHeardOther(s: System, s2: System, e: nat, f: nat, c: Counts, now: nat)
    requires |s| == |s2| == 3 && Shaped(s) && Shaped(s2) && 1 <= f <= 2 && 1 <= e <= 2 && e != f && Leaf(s, f, c)
    requires s2[f] == s[f] && HeardNext(s[0], s2[0], e, now)
    requires Table(s2[0].node, Addr(f)) == Table(s[0].node, Addr(f))
    ensures Leaf(s2, f, c) && Buf(s2[0], f) == Buf(s[0], f)
  {
    hide Rl, Seqs, Woven, Pairs, UnitTo, Table;
    SameTableSameList(s2[0], s[0], f);
  }

  /** A reachable state whose next step may be that drone 0 processes a message of drone e. */
  ghost predicate AboutToProcess(s: System, e: nat) {
    && |s| == 3 && Reachable(s) && Shaped(s) && s[0].inbox != [] && SenderOf(s[0]) == e
  }

  /** Drone 0, which had received nothing in s, processes in s1 a message of drone e. */
  ghost predicate HubProcesses(s: System, s1: System, s2: System, e: nat) {
    && |s| == |s2| == 3 && 1 <= e <= 2 && AboutToProcess(s1, e) && s1[0].node == s[0].node
    && s2 == Next(s1, ProcessStep(0))
    && Buf(s2[0], 3 - e) == Buf(s[0], 3 - e)
  }

  lemma HubHearsLeaf(s: System, e: nat, c1: Counts, c2: Counts, t: nat, now: nat) returns (s1: System, s2: System)
    requires Star(s, c1, c2, t) && 1 <= e <= 2 && now >= t
    requires var c := if e == 1 then c1 else c2; c.b + 1 == c.f && now == 100 * (c.b + 1) + 40 * e
    ensures HubProcesses(s, s1, s2, e)
    ensures Star(s2, if e == 1 then c1.(b := c1.b + 1) else c1, if e == 2 then c2.(b := c2.b + 1) else c2, now + 1)
  {
    hide Inv, Leaf, Reachable, Delivered, ProcessedNext, Known, HeardNext, Buf, Table;
    var c := if e == 1 then c1 else c2;
    LeafCursors(s, e, c);
    s1, s2 := Hears(s, 0, e, now);
    ReachesNext(s, DeliverStep(0, e, now));
    ReachesNext(s1, ProcessStep(0));
    HubHeardLeaf(s, s1, s2, e, c, now);
    HubHeardOther(s, s2, e, 3 - e, if e == 1 then c2 else c1, now);
    HeardShape(s[0], s2[0], e, now);
    DeliveredKeeps(s[0], e, s[e].sent[s[0].cursor[e]], now);
  }

  // ---------------------------------------------------------------- the second ending is wrong

  lemma LeafIsStatic(s: System, e: nat, c: Counts)
    requires |s| == 3 && Inv(s) && Shaped(s) && 1 <= e <= 2 && Leaf(s, e, c)
    ensures GoodLink(TruthOf(s[0], s[e], 0, e), ExampleLinks()(e)) && s[0].clean[e]
  {
    hide Inv, Rl, Seqs, UnitTo, GoodLink, OwnInv, Receiving, Paired, PushedOnce, QueuedPast, SmallGaps, FreshSlots,
         ExampleLinks, Woven, Pairs;
    LeafLinkIsGood(e, c.h, c.g, c.f, c.b);
    PairOf(s, 0, e);
    NoGaps(Rl(s[0], e), c.b);
  }

  lemma StarIsStatic(s: System, c1: Counts, c2: Counts, t: nat)
    requires Star(s, c1, c2, t)
    ensures StaticUpTo(s, 0, ExampleLinks())
  {
    hide Inv, Leaf, Reachable, GoodLink, ExampleLinks;
    LeafIsStatic(s, 1, c1);
    LeafIsStatic(s, 2, c2);
  }

  /** In state s drone 0 is about to process the message that ends its initialization with drone e, with drone 3 - e
      initialized already. */
  ghost predicate EndsSecond(s: System, e: nat) {
    |s| == 3 && 1 <= e <= 2 && EndsInitialization(s, 0, e, ExampleLinks()) && !Initializing(Buf(s[0], 3 - e))
  }

  /** Such a state is reachable. */
  ghost predicate Found() { exists s: System, e: nat :: EndsSecond(s, e) }

  ghost predicate StillInitializing(s: System)
    requires |s| == 3
  {
    Initializing(Buf(s[0], 1)) || Initializing(Buf(s[0], 2))
  }

  lemma HearingTellsEnding(s: System, e: nat, c1: Counts, c2: Counts, t: nat, now: nat) returns (s': System)
    requires Star(s, c1, c2, t) && 1 <= e <= 2 && now >= t
    requires var c := if e == 1 then c1 else c2; c.b + 1 == c.f && now == 100 * (c.b + 1) + 40 * e
    ensures Star(s', if e == 1 then c1.(b := c1.b + 1) else c1, if e == 2 then c2.(b := c2.b + 1) else c2, now + 1)
    ensures StillInitializing(s) ==> StillInitializing(s') || Found()
  {
    hide Inv, Leaf, Reachable, Process, Initializing, StaticUpTo, Next;
    var s1: System;
    s1, s' := HubHearsLeaf(s, e, c1, c2, t, now);
    StarIsStatic(s', if e == 1 then c1.(b := c1.b + 1) else c1, if e == 2 then c2.(b := c2.b + 1) else c2, now + 1);
    BufSame(s[0], s1[0], 1);
    BufSame(s[0], s1[0], 2);
    assert StillInitializing(s) && !StillInitializing(s') ==> EndsSecond(s1, e);
  }

  lemma BufSame(x: Drone, x': Drone, e: nat)
    requires x.node.neighbours == x'.node.neighbours
    ensures Buf(x, e) == Buf(x', e)
  {
  }

  /** After k rounds everything that was sent has been heard and processed. */
  ghost predicate AfterRounds(s: System, k: nat) {
    Star(s, Counts(k, k, k, k), Counts(k, k, k, k), 100 * (k + 1)) && (StillInitializing(s) || Found())
  }

  lemma NoRounds()
    ensures AfterRounds(InitialSystem(3), 0)
  {
    hide Inv, InitialDrone, Rl, UnitTo;
    var s := InitialSystem(3);
    InitialInv(3);
    assert IsRun(s, [], s);
    InitialLeaf(s, 1);
    InitialLeaf(s, 2);
    InitialTables(0, 3, 1);
    InitialQuiet(s);
  }

  lemma InitialQuiet(s: System)
    requires s == InitialSystem(3)
    ensures forall d :: 0 <= d < 3 ==> s[d].pending.None? && s[d].inbox == [] && s[d].clock == 0
  {
  }

  lemma InitialLeaf(s: System, e: nat)
    requires s == InitialSystem(3) && Shaped(s) && 1 <= e <= 2
    ensures Leaf(s, e, Counts(0, 0, 0, 0))
  {
    hide Rl, Woven, Pairs, UnitTo;
    InitialTables(0, 3, e);
    InitialTables(e, 3, 0);
    assert HubSends(0) == [] && LeafSends(e, 0) == [] && HubHears(e, 0) == map[] && LeafHears(e, 0) == map[];
    assert UpTo(0) == [] && Seqs([]) == [];
  }

  lemma KeepsTrying(s: System, s': System)
    requires SameTables(s, s')
    ensures StillInitializing(s') == StillInitializing(s)
  {
    BufSame(s[0], s'[0], 1);
    BufSame(s[0], s'[0], 2);
  }

  lemma StarLater(s: System, c1: Counts, c2: Counts, t: nat, u: nat)
    requires Star(s, c1, c2, t) && t <= u
    ensures Star(s, c1, c2, u)
  {
    hide Inv, Leaf, Reachable;
  }

  lemma OneRound(s: System, k: nat) returns (s': System)
    requires AfterRounds(s, k) && k < 1000
    ensures AfterRounds(s', k + 1)
  {
    hide Star, StillInitializing, Found, SameTables;
    var t := 100 * (k + 1);
    var c0, c1, c2, c3, c4 := Counts(k, k, k, k), Counts(k + 1, k, k, k), Counts(k + 1, k + 1, k, k),
      Counts(k + 1, k + 1, k + 1, k), Counts(k + 1, k + 1, k + 1, k + 1);
    var a := HubSpeaks(s, c0, c0, t, t);
    var b := LeafHearsHub(a, 1, c1, c1, t + 1, t + 10);
    var c := LeafHearsHub(b, 2, c2, c1, t + 11, t + 20);
    var d := LeafSpeaks(c, 1, c2, c2, t + 21, t + 30);
    KeepsTrying(s, a);
    KeepsTrying(a, b);
    KeepsTrying(b, c);
    KeepsTrying(c, d);
    var e := HearingTellsEnding(d, 1, c3, c2, t + 31, t + 40);
    var f := LeafSpeaks(e, 2, c4, c2, t + 41, t + 60);
    KeepsTrying(e, f);
    s' := HearingTellsEnding(f, 2, c4, c3, t + 61, t + 80);
    StarLater(s', c4, c4, t + 81, t + 100);
  }

  lemma {:induction false} Rounds(k: nat) returns (s: System)
    requires k <= 1000
    ensures AfterRounds(s, k)
    decreases k
  {
    hide AfterRounds;
    if k == 0 {
      NoRounds();
      s := InitialSystem(3);
    } else {
      var was := Rounds(k - 1);
      s := OneRound(was, k - 1);
    }
  }

  /** Five rounds initialize drone 0 with both others, so one of the two initializations ended second. */
  lemma FiveRoundsSuffice(s: System)
    requires AfterRounds(s, 5)
    ensures Found()
  {
    hide Inv, Leaf, Reachable, Buf, Found, Initializing, OwnInv;
    var c := Counts(5, 5, 5, 5);
    OwnOf(s, 0);
    LeafInitialized(s, 1, c);
    LeafInitialized(s, 2, c);
  }

  lemma LeafInitialized(s: System, e: nat, c: Counts)
    requires |s| == 3 && Shaped(s) && 1 <= e <= 2 && Leaf(s, e, c) && c.b == 5 && OwnInv(s[0], 0, 3)
    ensures !Initializing(Buf(s[0], e))
  {
    hide Rl, Seqs, Woven, Pairs, UnitTo, OwnInv, Initializing;
    AllPairsStored(s[0], 0, e, 3);
  }

  /** The average fails. In a reachable state of three drones, on static links without loss, drone 0 processes a message
      of drone e that ends its initialization, and what this ending overwrites is not twice the delay of drone e. */
  lemma AverageFails() returns (s: System, e: nat)
    ensures |s| == 3 && 1 <= e <= 2 && EndsInitialization(s, 0, e, ExampleLinks())
    ensures !AverageLeft(s, 0, e, 2.0 * (10 * e) as real)
  {
    hide AfterRounds, EndsInitialization, AverageLeft, Process, Initializing, Found;
    var last := Rounds(5);
    FiveRoundsSuffice(last);
    s, e := SomeEndsSecond();
    AverageIsExactIffFirst(s, 0, e, ExampleLinks());
    OtherIsNeighbour(s[0], 3 - e);
  }

  lemma SomeEndsSecond() returns (s: System, e: nat)
    requires Found()
    ensures |s| == 3 && 1 <= e <= 2 && EndsInitialization(s, 0, e, ExampleLinks()) && !Initializing(Buf(s[0], 3 - e))
  {
    hide EndsInitialization, Buf, Initializing;
    s, e :| EndsSecond(s, e);
  }

  lemma OtherIsNeighbour(x: Drone, f: nat)
    requires 1 <= f <= 2 && !Initializing(Buf(x, f))
    ensures exists nb <- x.node.neighbours :: nb.address == Addr(f) && nb.validBuffer.send != []
  {
    var i := FindNeighbour(x.node.neighbours, Addr(f));
    assert i != NULL_INDEX;
    assert x.node.neighbours[i] in x.node.neighbours;
  }
}
