/** Whole-run exactness: two drones with drift-free clocks at a constant offset, a constant integer delay, and a
    half-duplex link. Bursts, losses in both directions and any interleaving within that discipline are allowed;
    as long as a drone misses at most two messages in a row, everything it calculates is exact. */
module TwoDrones {
  import opened Config
  import opened RangingListSpec
  import opened RangingBufferSpec
  import opened NodeSpec
  import opened LossTolerance
  import opened ExactlyOnce
  import opened Pairing
  import opened Exactness
  import opened Protocol
  import opened ProtocolProof
  import opened ProtocolTheorems

  /** The link as drone d sees it: the clock of drone 1 runs `offset` ahead of the clock of drone 0. */
  function Seen(link: Link, d: nat): Link {
    if d == 0 then link else Link(link.delay, -link.offset)
  }

  /** A step of the half-duplex static link: a drone generates only when nothing of the other one is under way to it
      or waiting in it, and messages take exactly the delay. */
  ghost predicate Disciplined(s: System, step: Step, link: Link)
    requires Shaped(s) && |s| == 2 && Enabled(s, step)
  {
    match step
    case GenerateStep(d) => s[1 - d].pending.None? && s[d].cursor[1 - d] == |s[1 - d].sent| && s[d].inbox == []
    case TransmitStep(d, now) => now < UWB_MAX_TIMESTAMP
    case DeliverStep(d, e, now) =>
      && now < UWB_MAX_TIMESTAMP
      && 1 <= s[d].cursor[e] + 1 <= |s[e].node.history|
      && now == s[e].node.history[s[d].cursor[e]].time - Seen(link, d).offset + link.delay
    case _ => true
  }

  // ---------------------------------------------------------------- invariants; x is drone d and y is drone e

  /** When x generated its message k, what y had sent before was delivered or lost. */
  ghost predicate Drained(x: Drone, y: Drone, e: nat) {
    && e < |x.cursor| && (forall k :: 0 <= k < |x.origin| ==> e < |x.origin[k].existing|)
    && forall k :: 0 <= k < |x.origin| ==> x.origin[k].existing[e] <= |y.sent| && x.origin[k].existing[e] <= x.cursor[e]
  }

  /** Of two messages, one of each drone, one existed when the other was generated. */
  ghost predicate Dichotomy(x: Drone, y: Drone, d: nat, e: nat) {
    forall k, j | 0 <= k < |x.origin| && 0 <= j < |y.origin| && e < |x.origin[k].existing|
      && d < |y.origin[j].existing| ::
      j < x.origin[k].existing[e] || k < y.origin[j].existing[d]
  }

  /** What existed when message k was generated, and was heard, was heard before message k left. */
  ghost predicate HeardBefore(x: Drone, e: nat) {
    forall k, r | 0 <= k < |x.sent| && k < |x.origin| && k < |x.node.history| && e < |x.origin[k].existing|
      && e < |x.heard|
                  && 1 <= r <= x.origin[k].existing[e] && r in x.heard[e] ::
      x.heard[e][r] < x.node.history[k].time
  }

  /** And it was processed before message k was generated. */
  ghost predicate KnewAll(x: Drone, e: nat) {
    forall k, r | 0 <= k < |x.origin| && e < |x.origin[k].existing| && e < |x.origin[k].processed| && e < |x.heard|
                  && 1 <= r <= x.origin[k].existing[e] && r in x.heard[e] ::
      x.origin[k].processed[e] <= |Rl(x, e)| && r in Seqs(Rl(x, e))[..x.origin[k].processed[e]]
  }

  ghost predicate InQueue(x: Drone, e: nat, r: nat) {
    exists i :: 0 <= i < |x.inbox| && x.inbox[i].msg.src == Addr(e) && x.inbox[i].msg.seqNo == r
  }

  /** Everything heard is processed or queued. */
  ghost predicate Accounted(x: Drone, e: nat) {
    e < |x.heard| && forall r :: r in x.heard[e] ==> r in Seqs(Rl(x, e)) || InQueue(x, e, r)
  }

  /** Every message of y that has something to report to drone d does so. */
  ghost predicate Reporting(y: Drone, d: nat) {
    forall k | 0 <= k < |y.origin| && k < |Messages(y)| && d < |y.origin[k].processed|
      && y.origin[k].processed[d] > 0 ::
      UnitTo(Messages(y)[k].units, Addr(d)) != NULL_INDEX
  }

  /** No message of y that x processed lacked a report, so the last report x processed is that of the newest message. */
  ghost predicate Covered(x: Drone, y: Drone, d: nat, e: nat) {
    && e < |x.acked| && x.acked[e] == Known(y, LastSeq(Rl(x, e)), d)
    && Reporting(y, d)
  }

  ghost predicate Timed(x: Drone, y: Drone, d: nat, e: nat, link: Link) {
    e < |x.heard| && d < |y.heard|
    && Static(TruthOf(x, y, d, e), Seen(link, d)) && Within40Bits(TruthOf(x, y, d, e))
  }

  /** While no initialization of x met a stale record: all its records are exact, and so is the last distance. */
  ghost predicate ExactDrone(x: Drone, e: nat, delay: nat) {
    e < |x.clean| && x.clean[e] ==>
      && ExactTable(Table(x.node, Addr(e)), x.node.initTofSum, delay)
      && (x.node.lastD.Some? ==> x.node.lastD.value == delay as real * VELOCITY)
  }

  ghost predicate SideInv(x: Drone, y: Drone, d: nat, e: nat, link: Link) {
    && Drained(x, y, e) && HeardBefore(x, e) && KnewAll(x, e) && Accounted(x, e) && InOrder(x.heard[e])
    && Covered(x, y, d, e) && Timed(x, y, d, e, link) && ExactDrone(x, e, link.delay)
  }

  ghost predicate TwoInv(s: System, link: Link) {
    && |s| == 2 && Inv(s) && Shaped(s)
    && SideInv(s[0], s[1], 0, 1, link) && SideInv(s[1], s[0], 1, 0, link)
    && Dichotomy(s[0], s[1], 0, 1)
  }

  // ---------------------------------------------------------------- consequences

  lemma DichotomySymmetric(x: Drone, y: Drone, d: nat, e: nat)
    requires Dichotomy(x, y, d, e)
    ensures Dichotomy(y, x, e, d)
  {
  }

  /** With two drones there is always room for the other one. */
  lemma OnlyNeighbour(x: Drone, d: nat, e: nat)
    requires OwnInv(x, d, 2) && d < 2 && e == 1 - d
    ensures |x.node.neighbours| <= 1 && Room(x.node, Addr(e))
    ensures forall nb <- x.node.neighbours :: nb.address == Addr(e)
  {
    hide Numbered, MessageOk;
    forall nb | nb in x.node.neighbours
      ensures nb.address == Addr(e)
    {
      assert IsOther(nb.address, d, 2);
    }
    var nbs := x.node.neighbours;
    assert Distinct(nbs);
    assert |nbs| > 1 ==> nbs[0].address == nbs[1].address;
  }

  /** Half-duplex messages do not cross. */
  lemma DisciplineMeansNoCrossing(x: Drone, y: Drone, d: nat, e: nat)
    requires d < 2 && e == 1 - d && OwnInv(x, d, 2) && OwnInv(y, e, 2) && PairInv(x, y, d, e) && PairInv(y, x, e, d)
    requires HeardBefore(x, e) && HeardBefore(y, d) && Dichotomy(x, y, d, e)
    ensures NoCrossing(TruthOf(x, y, d, e))
  {
    hide Paired, PushedOnce, QueuedPast, BuffersOk, Numbered, MessageOk, Distinct, Rl, RxIncreasing, QueuedOk;
    var t := TruthOf(x, y, d, e);
    forall s, r | 1 <= s <= |t.mine| && s in t.theirHeard && 1 <= r <= |t.theirs| && r in t.myHeard
                  && t.mine[s - 1].time < t.myHeard[r]
      ensures t.theirHeard[s] < t.theirs[r - 1].time
    {
      assert |x.origin[s - 1].existing| == 2 && |y.origin[r - 1].existing| == 2;
    }
  }

  lemma LinkIsGood(x: Drone, y: Drone, d: nat, e: nat, link: Link)
    requires d < 2 && e == 1 - d && OwnInv(x, d, 2) && OwnInv(y, e, 2) && PairInv(x, y, d, e) && PairInv(y, x, e, d)
    requires SideInv(x, y, d, e, link) && SideInv(y, x, e, d, link) && Dichotomy(x, y, d, e)
    requires link.delay as real * VELOCITY <= MAX_DISTANCE
    ensures GoodLink(TruthOf(x, y, d, e), Seen(link, d))
  {
    hide OwnInv, PairInv, HeardBefore, Static, Within40Bits, NoCrossing, Dichotomy, Drained, KnewAll, Accounted,
         Covered, ExactDrone;
    DisciplineMeansNoCrossing(x, y, d, e);
  }

  // ---------------------------------------------------------------- the other side of a step

  /** What holds of x stays when y takes a step. */
  lemma OtherSideKeeps(x: Drone, y: Drone, y': Drone, d: nat, e: nat, link: Link)
    requires SideInv(x, y, d, e, link) && Evolves(y, y') && Timed(x, y', d, e, link)
    requires Receiving(x, y, e) && Outgoing(y, d)
    requires LastSeq(Rl(x, e)) <= |y.origin|
    requires Reporting(y', d)
    ensures SideInv(x, y', d, e, link)
  {
    hide Timed, Accounted, KnewAll, HeardBefore, ExactDrone, Rl, Seqs, Outgoing, Receiving;
  }

  lemma NewestWithinOrigin(x: Drone, y: Drone, d: nat, e: nat)
    requires PairInv(x, y, d, e) && OwnInv(y, e, 2)
    ensures LastSeq(Rl(x, e)) <= |y.origin| && Receiving(x, y, e)
  {
    hide Paired, PushedOnce, QueuedPast, BuffersOk, Numbered, MessageOk, Distinct, Rl, RxIncreasing, QueuedOk;
  }

  // ---------------------------------------------------------------- generate

  /** A drone with something to report reports it in the first unit. */
  lemma GeneratedUnit(x: Drone, d: nat, e: nat)
    requires OwnInv(x, d, 2) && d < 2 && e == 1 - d && Rl(x, e) != []
    ensures UnitTo(Generate(x.node).units, Addr(e)) != NULL_INDEX
  {
    hide OwnInv;
    OnlyNeighbour(x, d, e);
    var n := x.node;
    assert n.neighbours != [] && n.priority[0] == 0;
    assert n.neighbours[0] in n.neighbours;
    assert UnitFor(n, 0).dest == Addr(e);
    assert Generate(n).units[0].dest == Addr(e);
  }

  lemma GenerateSides(s: System, d: nat, link: Link)
    requires TwoInv(s, link) && d < 2 && Enabled(s, GenerateStep(d)) && Disciplined(s, GenerateStep(d), link)
    ensures var e := 1 - d; var x' := Generated(s, d);
            && SideInv(x', s[e], d, e, link)
            && Reporting(x', e)
            && Dichotomy(x', s[e], d, e)
            && Timed(s[e], x', e, d, link)
  {
    hide Inv, OwnInv, Outgoing, PairInv, Rl, Generated, KnewAll, Accounted, Covered, ExactDrone, Drained, HeardBefore,
         Timed, Dichotomy, UnitTo;
    var e := 1 - d;
    var x, y, x' := s[d], s[e], Generated(s, d);
    InvParts(s, d, e);
    TwoSides(s, link, d);
    SideReports(y, x, e, d, link);
    GenerateKnew(s, d, e);
    GenerateCovers(s, d, e);
    GenerateOrder(s, d, e);
    GenerateTimed(s, d, e, link);
    GenerateExact(s, d, e, link.delay);
  }

  lemma GenerateExact(s: System, d: nat, e: nat, delay: nat)
    requires Shaped(s) && d < |s| && ExactDrone(s[d], e, delay)
    ensures ExactDrone(Generated(s, d), e, delay)
  {
    hide ExactDrone, Generate, OriginNow;
    ExactSame(s[d], Generated(s, d), e, delay);
  }

  lemma GenerateTimed(s: System, d: nat, e: nat, link: Link)
    requires Shaped(s) && |s| == 2 && d < 2 && e == 1 - d && Timed(s[d], s[e], d, e, link)
    requires Timed(s[e], s[d], e, d, link)
    ensures Timed(Generated(s, d), s[e], d, e, link) && Timed(s[e], Generated(s, d), e, d, link)
  {
    hide Static, Within40Bits, Generate, OriginNow;
    var x, y, x' := s[d], s[e], Generated(s, d);
    assert TruthOf(x', y, d, e) == TruthOf(x, y, d, e);
    assert TruthOf(y, x', e, d) == TruthOf(y, x, e, d);
  }

  /** The new message reports whatever there is to report. */
  lemma GenerateCovers(s: System, d: nat, e: nat)
    requires Shaped(s) && |s| == 2 && d < 2 && e == 1 - d && OwnInv(s[d], d, 2) && s[d].pending.None?
    requires Covered(s[d], s[e], d, e)
    requires Reporting(s[d], e)
    ensures Covered(Generated(s, d), s[e], d, e)
    ensures Reporting(Generated(s, d), e)
  {
    hide Rl, Generate, OwnInv, UnitTo;
    var x, x' := s[d], Generated(s, d);
    OwnShape(x, d);
    RlOf(x, x');
    assert Messages(x') == Messages(x) + [Generate(x.node)];
    if Rl(x, e) != [] { GeneratedUnit(x, d, e); }
  }

  /** Everything the other drone sent so far exists and was delivered or lost. */
  lemma GenerateOrder(s: System, d: nat, e: nat)
    requires Shaped(s) && |s| == 2 && d < 2 && e == 1 - d && OwnInv(s[d], d, 2) && OwnInv(s[e], e, 2)
    requires s[d].pending.None? && s[e].pending.None? && s[d].cursor[e] == |s[e].sent|
    requires Drained(s[d], s[e], e) && HeardBefore(s[d], e) && Dichotomy(s[d], s[e], d, e) && e < |s[d].heard|
    requires InOrder(s[d].heard[e])
    ensures Drained(Generated(s, d), s[e], e) && HeardBefore(Generated(s, d), e)
    ensures Dichotomy(Generated(s, d), s[e], d, e)
    ensures InOrder(Generated(s, d).heard[e])
  {
    hide Rl, Generate, OwnInv;
    var x, x' := s[d], Generated(s, d);
    OwnShape(x, d);
    OwnShape(s[e], e);
    var k := |x.origin|;
    assert x'.origin[k].existing[e] == |s[e].sent|;
    assert forall j :: 0 <= j < k ==> x'.origin[j] == x.origin[j];
  }

  lemma ExactSame(x: Drone, x': Drone, e: nat, delay: nat)
    requires ExactDrone(x, e, delay) && x.node.neighbours == x'.node.neighbours
    requires x.node.initTofSum == x'.node.initTofSum && x.node.lastD == x'.node.lastD && x.clean == x'.clean
    ensures ExactDrone(x', e, delay)
  {
    hide ExactTable, DistanceOf;
    RlOf(x, x');
  }

  lemma GenerateKnew(s: System, d: nat, e: nat)
    requires Shaped(s) && |s| == 2 && d < 2 && e == 1 - d && s[d].inbox == [] && KnewAll(s[d], e) && Accounted(s[d], e)
    requires OwnInv(s[d], d, 2)
    ensures KnewAll(Generated(s, d), e) && Accounted(Generated(s, d), e)
  {
    hide Rl, Seqs, Numbered, MessageOk, Distinct, Generate;
    var x, x' := s[d], Generated(s, d);
    RlOf(x, x');
    var all := Seqs(Rl(x, e));
    assert |all| == |Rl(x, e)| by { SeqsLength(Rl(x, e)); }
    assert all[..|all|] == all;
  }

  lemma SeqsLength(log: Log)
    ensures |Seqs(log)| == |log|
  {
  }

  lemma InvParts(s: System, d: nat, e: nat)
    requires Inv(s) && d < |s| && e < |s| && d != e
    ensures OwnInv(s[d], d, |s|) && OwnInv(s[e], e, |s|) && Outgoing(s[d], e) && Outgoing(s[e], d)
    ensures PairInv(s[d], s[e], d, e) && PairInv(s[e], s[d], e, d)
  {
    hide OwnInv, Outgoing, PairInv;
  }

  lemma OwnShape(x: Drone, d: nat)
    requires OwnInv(x, d, 2)
    ensures |x.cursor| == |x.heard| == |x.acked| == |x.clean| == 2 && |x.origin| == |Messages(x)|
    ensures |x.node.history| == |x.sent|
    ensures forall k :: 0 <= k < |x.origin| ==> |x.origin[k].processed| == |x.origin[k].existing| == 2
  {
  }

  lemma TwoSides(s: System, link: Link, d: nat)
    requires TwoInv(s, link) && d < 2
    ensures SideInv(s[d], s[1 - d], d, 1 - d, link) && SideInv(s[1 - d], s[d], 1 - d, d, link)
    ensures Dichotomy(s[d], s[1 - d], d, 1 - d)
  {
    hide Inv, SideInv;
    if d == 1 { DichotomySymmetric(s[0], s[1], 0, 1); }
  }

  // ---------------------------------------------------------------- transmit

  lemma TransmitSides(x: Drone, y: Drone, d: nat, e: nat, now: nat, link: Link)
    requires d < 2 && e == 1 - d && OwnInv(x, d, 2) && OwnInv(y, e, 2) && PairInv(x, y, d, e) && PairInv(y, x, e, d)
    requires SideInv(x, y, d, e, link) && SideInv(y, x, e, d, link)
    requires x.pending.Some? && now > x.clock && now < UWB_MAX_TIMESTAMP
    ensures SideInv(Transmitted(x, now), y, d, e, link)
    ensures Timed(y, Transmitted(x, now), e, d, link)
  {
    hide Paired, PushedOnce, QueuedPast, BuffersOk, Receiving, OwnInv, Rl, UnitTo, ExactDrone, Timed, Accounted,
         HeardBefore, Drained, KnewAll;
    var x' := Transmitted(x, now);
    OwnShape(x, d);
    RlOf(x, x');
    assert Messages(x') == Messages(x);
    ExactSame(x, x', e, link.delay);
    TransmitTimed(x, y, d, e, now, link);
    AccountedSame(x, x', e);
    TransmitOrder(x, y, d, e, now);
    assert KnewAll(x', e) by { KnewSame(x, x', e); }
    assert Covered(x', y, d, e);
  }

  lemma KnewSame(x: Drone, x': Drone, e: nat)
    requires KnewAll(x, e) && x'.origin == x.origin && x'.heard == x.heard && x'.node.neighbours == x.node.neighbours
    ensures KnewAll(x', e)
  {
    hide Rl, Seqs;
    RlOf(x, x');
  }

  lemma TransmitOrder(x: Drone, y: Drone, d: nat, e: nat, now: nat)
    requires d < 2 && e == 1 - d && OwnInv(x, d, 2) && Receiving(x, y, e) && x.pending.Some? && now > x.clock
    requires HeardBefore(x, e) && Drained(x, y, e)
    ensures HeardBefore(Transmitted(x, now), e) && Drained(Transmitted(x, now), y, e)
  {
    hide OwnInv, Rl, RxIncreasing, QueuedOk;
    OwnShape(x, d);
    assert forall k :: 0 <= k < |x.sent| ==> Transmitted(x, now).node.history[k] == x.node.history[k];
  }

  lemma TransmitTimed(x: Drone, y: Drone, d: nat, e: nat, now: nat, link: Link)
    requires d < 2 && e == 1 - d && Timed(x, y, d, e, link) && Timed(y, x, e, d, link) && Receiving(y, x, d)
    requires |x.node.history| == |x.sent| && x.pending.Some? && now < UWB_MAX_TIMESTAMP
    ensures Timed(Transmitted(x, now), y, d, e, link) && Timed(y, Transmitted(x, now), e, d, link)
  {
    hide Rl, RxIncreasing, QueuedOk;
    var x' := Transmitted(x, now);
    assert x'.node.history[..|x.node.history|] == x.node.history;
  }

  // ---------------------------------------------------------------- deliver, lose

  lemma DeliverSides(x: Drone, y: Drone, d: nat, e: nat, now: nat, link: Link)
    requires d < 2 && e == 1 - d && OwnInv(x, d, 2) && OwnInv(y, e, 2) && PairInv(x, y, d, e)
    requires SideInv(x, y, d, e, link) && SideInv(y, x, e, d, link)
    requires x.cursor[e] < |y.sent| && now > x.clock && now < UWB_MAX_TIMESTAMP
    requires now == y.node.history[x.cursor[e]].time - Seen(link, d).offset + link.delay
    ensures SideInv(Delivered(x, e, y.sent[x.cursor[e]], now), y, d, e, link)
    ensures Timed(y, Delivered(x, e, y.sent[x.cursor[e]], now), e, d, link)
  {
    hide Paired, PushedOnce, QueuedPast, BuffersOk, Numbered, MessageOk, Distinct, Rl, RxIncreasing, QueuedOk, Seqs,
         UnitTo, ExactDrone, InQueue, Timed;
    var m := y.sent[x.cursor[e]];
    SentMessage(y, e, 2, x.cursor[e]);
    var x' := Delivered(x, e, m, now);
    RlOf(x, x');
    assert Messages(x') == Messages(x);
    ExactSame(x, x', e, link.delay);
    DeliverTimed(x, y, d, e, m, now, link);
    DeliverAccounted(x, e, m, now);
    DeliverInOrder(x, y, e, m, now);
    assert HeardBefore(x', e);
    assert KnewAll(x', e);
    assert Covered(x', y, d, e);
  }

  lemma DeliverInOrder(x: Drone, y: Drone, e: nat, m: Message, now: nat)
    requires e < |x.heard| && InOrder(x.heard[e]) && Receiving(x, y, e) && m.seqNo == x.cursor[e] + 1 && now > x.clock
    ensures e < |Delivered(x, e, m, now).heard| && InOrder(Delivered(x, e, m, now).heard[e])
  {
    hide Rl, RxIncreasing, QueuedOk;
  }

  lemma DeliverAccounted(x: Drone, e: nat, m: Message, now: nat)
    requires Accounted(x, e) && e < |x.cursor| && m.src == Addr(e)
    ensures Accounted(Delivered(x, e, m, now), e)
  {
    hide Rl, Seqs;
    var x' := Delivered(x, e, m, now);
    RlOf(x, x');
    assert x'.inbox[|x.inbox|].msg == m;
    forall r | r in x'.heard[e]
      ensures r in Seqs(Rl(x', e)) || InQueue(x', e, r)
    {
      if r != m.seqNo && InQueue(x, e, r) {
        var i :| 0 <= i < |x.inbox| && x.inbox[i].msg.src == Addr(e) && x.inbox[i].msg.seqNo == r;
        assert x'.inbox[i] == x.inbox[i];
      }
    }
  }

  lemma DeliverTimed(x: Drone, y: Drone, d: nat, e: nat, m: Message, now: nat, link: Link)
    requires d < 2 && e == 1 - d && Timed(x, y, d, e, link) && Timed(y, x, e, d, link) && e < |x.cursor|
    requires m.seqNo == x.cursor[e] + 1 <= |y.node.history| && now < UWB_MAX_TIMESTAMP
    requires now == y.node.history[x.cursor[e]].time - Seen(link, d).offset + link.delay
    ensures Timed(Delivered(x, e, m, now), y, d, e, link) && Timed(y, Delivered(x, e, m, now), e, d, link)
  {
    hide Within40Bits;
    var x' := Delivered(x, e, m, now);
    DeliverWithin(TruthOf(x, y, d, e), TruthOf(x', y, d, e), m.seqNo, now);
    WithinSymmetric(x', y, d, e);
  }

  lemma DeliverWithin(t: Truth, u: Truth, seqNo: nat, now: nat)
    requires Within40Bits(t) && now < UWB_MAX_TIMESTAMP
    requires u.mine == t.mine && u.theirs == t.theirs && u.theirHeard == t.theirHeard
    requires forall k :: k in u.myHeard ==>
               (k == seqNo && u.myHeard[k] == now) || (k in t.myHeard && u.myHeard[k] == t.myHeard[k])
    ensures Within40Bits(u)
  {
  }

  lemma WithinSymmetric(x: Drone, y: Drone, d: nat, e: nat)
    requires e < |x.heard| && d < |y.heard| && Within40Bits(TruthOf(x, y, d, e))
    ensures Within40Bits(TruthOf(y, x, e, d))
  {
  }

  lemma LoseSides(x: Drone, y: Drone, d: nat, e: nat, link: Link)
    requires d < 2 && e == 1 - d && SideInv(x, y, d, e, link) && SideInv(y, x, e, d, link)
    ensures SideInv(Lost(x, e), y, d, e, link)
    ensures Timed(y, Lost(x, e), e, d, link)
  {
    hide Rl, Seqs, UnitTo, ExactDrone, InQueue, Static, Within40Bits;
    var x' := Lost(x, e);
    RlOf(x, x');
    ExactSame(x, x', e, link.delay);
    assert TruthOf(x', y, d, e) == TruthOf(x, y, d, e);
    assert TruthOf(y, x', e, d) == TruthOf(y, x, e, d);
    AccountedSame(x, x', e);
  }

  lemma AccountedSame(x: Drone, x': Drone, e: nat)
    requires Accounted(x, e) && x'.inbox == x.inbox && x'.heard == x.heard && x'.node.neighbours == x.node.neighbours
    ensures Accounted(x', e)
  {
    hide Rl, Seqs;
    RlOf(x, x');
    forall r | r in x'.heard[e]
      ensures r in Seqs(Rl(x', e)) || InQueue(x', e, r)
    {
      if InQueue(x, e, r) {
        var i :| 0 <= i < |x.inbox| && x.inbox[i].msg.src == Addr(e) && x.inbox[i].msg.seqNo == r;
        assert x'.inbox[i] == x.inbox[i];
      }
    }
  }

  // ---------------------------------------------------------------- process

  /** The sends pushed by a message left after the previous reception arrived: were one of them older, the previous
      message would already have reported it. */
  lemma PushesFollowPrevious(x: Drone, y: Drone, d: nat, e: nat, link: Link)
    requires d < 2 && e == 1 - d && OwnInv(x, d, 2) && OwnInv(y, e, 2) && PairInv(x, y, d, e) && PairInv(y, x, e, d)
    requires Outgoing(y, d) && SideInv(x, y, d, e, link) && SideInv(y, x, e, d, link) && Dichotomy(x, y, d, e)
    requires x.inbox != [] && x.inbox[0].msg.src == Addr(e)
    ensures PushesFollow(Sl(x, e), ProcessFor(Table(x.node, Addr(e)), x.node, x.inbox[0]).0.nb.sendList,
        LastRx(Rl(x, e)))
  {
    hide Paired, PushedOnce, QueuedPast, BuffersOk, Distinct, RxIncreasing, QueuedOk, Seqs, UnitTo, Table, ProcessFor,
         Process, InQueue, Timed, ExactDrone, Accounted, Drained, OwnInv, Receiving, Outgoing, Rl, Sl, HeardBefore,
         KnewAll, Dichotomy;
    OnlyNeighbour(x, d, e);
    OwnShape(x, d);
    var x' := ProcessedNext(x, e, Known(y, x.inbox[0].msg.seqNo, d));
    ProcessPushes(x, y, d, e, 2);
    ProcessPaired(x, y, d, e, 2);
    ProcessRl(x, y, d, e, 2);
    var before := Sl(x, e);
    var after := ProcessFor(Table(x.node, Addr(e)), x.node, x.inbox[0]).0.nb.sendList;
    assert after == Sl(x', e) by { SlIs(x', e); }
    forall i | |before| <= i < |after|
      ensures after[i].tx > LastRx(Rl(x, e))
    {
      OwnDistinct(x, d, 2);
      ProcessKeepsHistory(x, e, Known(y, x.inbox[0].msg.seqNo, d));
      PushFollows(x, y, d, e, link, after, i, x');
    }
  }

  lemma SlIs(x: Drone, e: nat)
    ensures Sl(x, e) == Table(x.node, Addr(e)).sendList
  {
  }

  lemma ProcessKeepsHistory(x: Drone, e: nat, known: nat)
    requires x.inbox != [] && e < |x.acked| && e < |x.clean|
    ensures ProcessedNext(x, e, known).heard == x.heard
    ensures Distinct(x.node.neighbours) ==> ProcessedNext(x, e, known).node.history == x.node.history
  {
    hide Process, Distinct;
    if Distinct(x.node.neighbours) { TableAfterProcess(x.node, x.inbox[0], 0); }
  }

  lemma PushFollows(x: Drone, y: Drone, d: nat, e: nat, link: Link, after: Log, i: nat, x': Drone)
    requires d < 2 && e == 1 - d && OwnInv(x, d, 2) && OwnInv(y, e, 2) && PairInv(x, y, d, e)
    requires SideInv(x, y, d, e, link) && SideInv(y, x, e, d, link) && Dichotomy(x, y, d, e)
    requires Paired(x', y, d, e) && after == Sl(x', e) && i < |after| && x'.node.history == x.node.history
    requires x'.heard == x.heard
    requires x.acked[e] <= |Rl(y, d)| && after[i].localSeq !in Seqs(Rl(y, d))[..x.acked[e]]
    ensures after[i].tx > LastRx(Rl(x, e))
  {
    hide PushedOnce, QueuedPast, BuffersOk, Distinct, RxIncreasing, QueuedOk, UnitTo, Process, InQueue, Timed,
         ExactDrone, Accounted, Drained, MessageOk, Sl, Seqs, ReceiveListTrue, Tolerant, Rl;
    var s := after[i].localSeq;
    assert SentPair(TruthOf(x', y, d, e), s, after[i].tx, after[i].rx);
    var log := Rl(x, e);
    if log != [] {
      var r := Last(log).localSeq;
      NewestHeard(x, y, d, e);
      assert 1 <= r <= |y.origin| && 1 <= s <= |x.origin|;
      assert |x.origin[s - 1].existing| == 2 && |y.origin[r - 1].existing| == 2 && |y.origin[r - 1].processed| == 2;
      assert s <= y.origin[r - 1].existing[d] ==> s in Seqs(Rl(y, d))[..y.origin[r - 1].processed[d]];
      assert r <= x.origin[s - 1].existing[e];
      assert x.heard[e][r] < x.node.history[s - 1].time;
    }
  }

  lemma NewestHeard(x: Drone, y: Drone, d: nat, e: nat)
    requires PairInv(x, y, d, e) && OwnInv(y, e, 2) && Rl(x, e) != []
    ensures var r := Last(Rl(x, e)).localSeq;
            && r in x.heard[e] && x.heard[e][r] == LastRx(Rl(x, e)) && LastSeq(Rl(x, e)) == r && 1 <= r <= |y.origin|
  {
    hide PushedOnce, QueuedPast, BuffersOk, Numbered, MessageOk, Distinct, Rl, RxIncreasing, QueuedOk, SendListTrue,
         Tolerant;
  }

  lemma ProcessExact(x: Drone, y: Drone, d: nat, e: nat, link: Link)
    requires d < 2 && e == 1 - d && OwnInv(x, d, 2) && OwnInv(y, e, 2) && PairInv(x, y, d, e) && PairInv(y, x, e, d)
    requires Outgoing(y, d) && SideInv(x, y, d, e, link) && SideInv(y, x, e, d, link) && Dichotomy(x, y, d, e)
    requires x.inbox != [] && x.inbox[0].msg.src == Addr(e) && link.delay as real * VELOCITY <= MAX_DISTANCE
    ensures var x' := ProcessedNext(x, e, Known(y, x.inbox[0].msg.seqNo, d));
            && ExactDrone(x', e, link.delay)
            && (StaysClean(x, e) ==> ExactDistance(Process(x.node, x.inbox[0]).report, link.delay))
  {
    hide Paired, PushedOnce, QueuedPast, BuffersOk, Distinct, RxIncreasing, QueuedOk, Seqs, UnitTo, Table, ProcessFor,
         Process, InQueue, Timed, Accounted, Drained, OwnInv, Receiving, Outgoing, Rl, Sl, HeardBefore, KnewAll,
         Dichotomy, Covered, StaysClean, Room, GoodReception, GoodLink, ExactTable, TrueDistance, NextReceiveList,
         PushesFollow, Tolerant, Reaches, PairInv;
    var m := x.inbox[0];
    OnlyNeighbour(x, d, e);
    OwnShape(x, d);
    PairParts(x, y, d, e);
    var x' := ProcessedNext(x, e, Known(y, m.msg.seqNo, d));
    ProcessRl(x, y, d, e, 2);
    HeadIsTrue(x, y, d, e, 2);
    if StaysClean(x, e) {
      CleanBefore(x, e);
      HeadIsGood(x, y, d, e, 2);
      LinkIsGood(x, y, d, e, link);
      PushesFollowPrevious(x, y, d, e, link);
      var nb := Table(x.node, Addr(e));
      TableLists(x, e);
      TrueDistanceIs(link.delay);
      ProcessIsExact(TruthOf(x, y, d, e), Seen(link, d), nb, x.node, m);
      ProcessValues(x, d, e);
      TableLists(x', e);
      if ProcessFor(nb, x.node, m).1.Some? {
        ReportIsExact(x.node.lastD, link.delay);
      }
    }
  }

  /** Once a drone is initialized, a message that fills a record always yields the true distance. */
  lemma ProcessReports(x: Drone, y: Drone, d: nat, e: nat, link: Link)
    requires d < 2 && e == 1 - d && OwnInv(x, d, 2) && OwnInv(y, e, 2) && PairInv(x, y, d, e) && PairInv(y, x, e, d)
    requires Outgoing(y, d) && SideInv(x, y, d, e, link) && SideInv(y, x, e, d, link) && Dichotomy(x, y, d, e)
    requires x.inbox != [] && x.inbox[0].msg.src == Addr(e) && link.delay as real * VELOCITY <= MAX_DISTANCE
    requires x.clean[e] && !Initializing(Buf(x, e)) && Reaches(Rl(x, e), x.inbox[0].msg.seqNo)
    ensures Process(x.node, x.inbox[0]).report == Some(TrueDistance(link.delay))
  {
    hide Paired, PushedOnce, QueuedPast, BuffersOk, Distinct, RxIncreasing, QueuedOk, Seqs, UnitTo, Table, ProcessFor,
         Process, InQueue, Timed, Accounted, Drained, OwnInv, Receiving, Outgoing, Rl, Sl, HeardBefore, KnewAll,
         Dichotomy, Covered, StaysClean, Room, GoodReception, GoodLink, ExactTable, TrueDistance, NextReceiveList,
         PushesFollow, Tolerant, Reaches, PairInv;
    var m := x.inbox[0];
    OnlyNeighbour(x, d, e);
    PairParts(x, y, d, e);
    ProcessRl(x, y, d, e, 2);
    HeadIsTrue(x, y, d, e, 2);
    CleanBefore(x, e);
    HeadIsGood(x, y, d, e, 2);
    LinkIsGood(x, y, d, e, link);
    PushesFollowPrevious(x, y, d, e, link);
    var nb := Table(x.node, Addr(e));
    TableLists(x, e);
    OwnShape(x, d);
    ProcessAlwaysReports(TruthOf(x, y, d, e), Seen(link, d), nb, x.node, m);
    TrueDistanceIs(link.delay);
    ProcessValues(x, d, e);
    ReportIsExact(x.node.lastD, link.delay);
  }

  lemma CleanBefore(x: Drone, e: nat)
    requires x.inbox != [] && e < |x.clean|
    ensures StaysClean(x, e) ==> x.clean[e]
    ensures x.clean[e] && !Initializing(Buf(x, e)) ==> StaysClean(x, e)
  {
    hide NoStale, Initializing, Table;
  }

  lemma TableLists(x: Drone, e: nat)
    ensures Table(x.node, Addr(e)).receiveList == Rl(x, e) && Table(x.node, Addr(e)).sendList == Sl(x, e)
    ensures LastRx(Rl(x, e)) == if Rl(x, e) == [] then 0 else Last(Rl(x, e)).rx
  {
  }

  lemma PairParts(x: Drone, y: Drone, d: nat, e: nat)
    requires PairInv(x, y, d, e)
    ensures Receiving(x, y, e) && Paired(x, y, d, e) && PushedOnce(x, y, d, e) && QueuedPast(x, d, e)
    ensures BuffersOk(x, y, d, e)
  {
  }

  /** The values besides the tables that processing the only neighbour's message leaves behind. */
  lemma ProcessValues(x: Drone, d: nat, e: nat)
    requires d < 2 && e == 1 - d && OwnInv(x, d, 2) && x.inbox != [] && x.inbox[0].msg.src == Addr(e)
    ensures var m := x.inbox[0];
            var (p, distance) := ProcessFor(Table(x.node, Addr(e)), x.node, m);
            var after := Process(x.node, m);
            && after.node.initTofSum == p.initTofSum
            && after.node.lastD == (if distance.Some? then Some(distance.value.modified) else x.node.lastD)
            && after.report == (if distance.Some? then Some(Compensate(x.node.lastD, distance.value)) else None)
  {
    hide ProcessFor, OwnInv, UpdatePriority, Compensate, TableIn, Register;
    var m := x.inbox[0];
    OnlyNeighbour(x, d, e);
    OwnDistinct(x, d, 2);
    RegisterKeepsTables(x.node.neighbours, m.msg.src, m.msg.src);
    RoomMeansFound(x.node, m.msg.src);
    FoundTable(Register(x.node.neighbours, m.msg.src), m.msg.src);
  }

  lemma ProcessAccounted(x: Drone, y: Drone, d: nat, e: nat, link: Link)
    requires d < 2 && e == 1 - d && OwnInv(x, d, 2) && OwnInv(y, e, 2) && PairInv(x, y, d, e) && Outgoing(y, d)
    requires SideInv(x, y, d, e, link) && x.inbox != [] && x.inbox[0].msg.src == Addr(e)
    ensures var x' := ProcessedNext(x, e, Known(y, x.inbox[0].msg.seqNo, d));
            Accounted(x', e) && KnewAll(x', e)
  {
    hide Paired, PushedOnce, QueuedPast, BuffersOk, Distinct, RxIncreasing, QueuedOk, Seqs, UnitTo, Process, Timed,
         Drained, OwnInv, Receiving, Outgoing, Rl, HeardBefore, Covered, ExactDrone, NextReceiveList, ProcessFor,
         Table, Tolerant, PairInv;
    OnlyNeighbour(x, d, e);
    OwnShape(x, d);
    PairParts(x, y, d, e);
    ProcessRl(x, y, d, e, 2);
    var m := x.inbox[0];
    var x' := ProcessedNext(x, e, Known(y, m.msg.seqNo, d));
    var before, after := Seqs(Rl(x, e)), Seqs(Rl(x', e));
    NewestInSeqs(Rl(x', e));
    LongerList(Rl(x, e), Rl(x', e));
    assert forall i :: 0 <= i < |x'.inbox| ==> x'.inbox[i] == x.inbox[i + 1];
    forall r | r in x'.heard[e]
      ensures r in after || InQueue(x', e, r)
    {
      if r !in before {
        var i :| 0 <= i < |x.inbox| && x.inbox[i].msg.src == Addr(e) && x.inbox[i].msg.seqNo == r;
        if i > 0 { assert x'.inbox[i - 1] == x.inbox[i]; }
      }
    }
    forall k, r | 0 <= k < |x'.origin| && e < |x'.origin[k].existing| && e < |x'.origin[k].processed| && e < |x'.heard|
                  && 1 <= r <= x'.origin[k].existing[e] && r in x'.heard[e]
      ensures x'.origin[k].processed[e] <= |Rl(x', e)| && r in after[..x'.origin[k].processed[e]]
    {
      SeqsLength(Rl(x, e));
      assert after[..x.origin[k].processed[e]] == before[..x.origin[k].processed[e]];
    }
  }

  lemma LongerList(a: Log, b: Log)
    requires Seqs(a) <= Seqs(b)
    ensures |a| <= |b|
  {
  }

  lemma NewestInSeqs(log: Log)
    ensures log != [] ==> LastSeq(log) in Seqs(log)
  {
    if log != [] { assert Seqs(log)[|log| - 1] == LastSeq(log); }
  }

  lemma ProcessCovered(x: Drone, y: Drone, d: nat, e: nat)
    requires d < 2 && e == 1 - d && OwnInv(x, d, 2) && OwnInv(y, e, 2) && PairInv(x, y, d, e) && Outgoing(y, d)
    requires Covered(x, y, d, e) && x.inbox != [] && x.inbox[0].msg.src == Addr(e)
    ensures Covered(ProcessedNext(x, e, Known(y, x.inbox[0].msg.seqNo, d)), y, d, e)
  {
    hide Paired, QueuedPast, BuffersOk, Distinct, RxIncreasing, QueuedOk, Seqs, Process, PairInv, PushedOnce,
         Receiving, Outgoing, Rl, NextReceiveList, ProcessFor, Table, Tolerant, MessageTrue, OwnInv, Room;
    var m := x.inbox[0];
    OnlyNeighbour(x, d, e);
    OwnShape(x, d);
    OwnShape(y, e);
    OwnDistinct(x, d, 2);
    PairParts(x, y, d, e);
    HeadIsTrue(x, y, d, e, 2);
    ProcessRl(x, y, d, e, 2);
    MarksGrowAt(x, y, d, e, 2);
    var k := m.msg.seqNo - 1;
    if UnitTo(m.msg.units, Addr(d)) == NULL_INDEX {
      assert y.origin[k].processed[d] == 0;
    }
  }

  lemma ProcessSides(x: Drone, y: Drone, d: nat, e: nat, link: Link)
    requires d < 2 && e == 1 - d && OwnInv(x, d, 2) && OwnInv(y, e, 2) && PairInv(x, y, d, e) && PairInv(y, x, e, d)
    requires Outgoing(y, d) && SideInv(x, y, d, e, link) && SideInv(y, x, e, d, link) && Dichotomy(x, y, d, e)
    requires x.inbox != [] && x.inbox[0].msg.src == Addr(e) && link.delay as real * VELOCITY <= MAX_DISTANCE
    ensures var x' := ProcessedNext(x, e, Known(y, x.inbox[0].msg.seqNo, d));
            && SideInv(x', y, d, e, link) && Timed(y, x', e, d, link)
  {
    hide PairInv, OwnInv, Outgoing, Process, Rl, Covered, Accounted, KnewAll, ExactDrone, Dichotomy, Drained,
         HeardBefore, Timed, ProcessedNext;
    OwnShape(x, d);
    ProcessUntouched(x, y, d, e, link);
    ProcessExact(x, y, d, e, link);
    ProcessAccounted(x, y, d, e, link);
    ProcessCovered(x, y, d, e);
  }

  /** What processing does not touch. */
  lemma ProcessUntouched(x: Drone, y: Drone, d: nat, e: nat, link: Link)
    requires d < 2 && e == 1 - d && OwnInv(x, d, 2) && x.inbox != [] && e < |x.acked| && e < |x.clean|
    requires Drained(x, y, e) && HeardBefore(x, e) && Timed(x, y, d, e, link) && Timed(y, x, e, d, link)
    requires InOrder(x.heard[e])
    ensures var x' := ProcessedNext(x, e, Known(y, x.inbox[0].msg.seqNo, d));
            Drained(x', y, e) && HeardBefore(x', e) && Timed(x', y, d, e, link) && Timed(y, x', e, d, link)
              && InOrder(x'.heard[e])
  {
    hide OwnInv, Static, Within40Bits, Process, Distinct;
    OwnDistinct(x, d, 2);
    var x' := ProcessedNext(x, e, Known(y, x.inbox[0].msg.seqNo, d));
    TableAfterProcess(x.node, x.inbox[0], 0);
    assert TruthOf(x', y, d, e) == TruthOf(x, y, d, e);
    assert TruthOf(y, x', e, d) == TruthOf(y, x, e, d);
  }

  // ---------------------------------------------------------------- every disciplined step

  /** The side of the drone that takes the step, and what the other side needs of it. */
  lemma StepSides(s: System, step: Step, link: Link)
    requires TwoInv(s, link) && Enabled(s, step) && Disciplined(s, step, link)
    requires link.delay as real * VELOCITY <= MAX_DISTANCE
    ensures var (d, e) := (step.d, 1 - step.d); var x' := After(s, step);
            && SideInv(x', s[e], d, e, link) && Timed(s[e], x', e, d, link) && Dichotomy(x', s[e], d, e)
            && Reporting(x', e)
  {
    hide PairInv, OwnInv, Outgoing, SideInv, Timed, Dichotomy, Inv, Process, UnitTo;
    var d, e := step.d, 1 - step.d;
    var x, y := s[d], s[e];
    TwoSides(s, link, d);
    InvParts(s, d, e);
    OwnShape(x, d);
    OwnShape(y, e);
    SideReports(y, x, e, d, link);
    match step {
      case GenerateStep(_) => GenerateSides(s, d, link);
      case TransmitStep(_, now) =>
        TransmitSides(x, y, d, e, now, link);
        assert Messages(After(s, step)) == Messages(x);
        DichotomySame(x, After(s, step), y, d, e);
      case DeliverStep(_, e0, now) =>
        DeliverSides(x, y, d, e, now, link);
        assert Messages(After(s, step)) == Messages(x);
        DichotomySame(x, After(s, step), y, d, e);
      case LoseStep(_, e0) =>
        LoseSides(x, y, d, e, link);
        assert Messages(After(s, step)) == Messages(x);
        DichotomySame(x, After(s, step), y, d, e);
      case ProcessStep(_) =>
        HeadSender(x, d, 2);
        ProcessSides(x, y, d, e, link);
        assert Messages(After(s, step)) == Messages(x);
        DichotomySame(x, After(s, step), y, d, e);
    }
  }

  lemma SideReports(x: Drone, y: Drone, d: nat, e: nat, link: Link)
    requires SideInv(x, y, d, e, link)
    ensures Reporting(y, d)
  {
  }

  lemma DichotomySame(x: Drone, x': Drone, y: Drone, d: nat, e: nat)
    requires Dichotomy(x, y, d, e) && x'.origin == x.origin
    ensures Dichotomy(x', y, d, e)
  {
  }

  lemma StepKeepsTwoInv(s: System, step: Step, link: Link)
    requires TwoInv(s, link) && Enabled(s, step) && Disciplined(s, step, link)
    requires link.delay as real * VELOCITY <= MAX_DISTANCE
    ensures TwoInv(Next(s, step), link)
  {
    hide PairInv, OwnInv, Outgoing, SideInv, Timed, Dichotomy, Inv, After, UnitTo, Evolves;
    var d, e := step.d, 1 - step.d;
    StepSides(s, step, link);
    StepKeepsInv(s, step);
    StepOwn(s, step);
    InvParts(s, d, e);
    TwoSides(s, link, d);
    NewestWithinOrigin(s[e], s[d], e, d);
    OtherSideKeeps(s[e], s[d], After(s, step), e, d, link);
    if d == 1 { DichotomySymmetric(After(s, step), s[e], d, e); }
  }

  lemma InitialSide(d: nat, e: nat, link: Link)
    requires d < 2 && e == 1 - d
    ensures SideInv(InitialDrone(d, 2), InitialDrone(e, 2), d, e, link)
    ensures Dichotomy(InitialDrone(d, 2), InitialDrone(e, 2), d, e)
  {
    hide Rl, Sl;
    var x, y := InitialDrone(d, 2), InitialDrone(e, 2);
    InitialTables(d, 2, e);
    assert Static(TruthOf(x, y, d, e), Seen(link, d));
    assert ExactDrone(x, e, link.delay);
  }

  lemma InitialTwoInv(link: Link)
    ensures TwoInv(InitialSystem(2), link)
  {
    hide SideInv, Dichotomy, Inv, InitialDrone;
    InitialInv(2);
    InitialSide(0, 1, link);
    InitialSide(1, 0, link);
  }

  // ---------------------------------------------------------------- the result

  ghost predicate DisciplinedStep(s: System, step: Step, s': System, link: Link) {
    Shaped(s) && |s| == 2 && Enabled(s, step) && Disciplined(s, step, link) && s' == Next(s, step)
  }

  /** The states that a run of k steps on the half-duplex static link reaches. */
  ghost predicate ReachedIn(s: System, link: Link, k: nat)
    decreases k
  {
    if k == 0 then s == InitialSystem(2)
    else exists was: System, step: Step :: ReachedIn(was, link, k - 1) && DisciplinedStep(was, step, s, link)
  }

  ghost predicate Reached(s: System, link: Link) { exists k: nat :: ReachedIn(s, link, k) }

  lemma {:induction false} RunKeepsTwoInv(s: System, link: Link, k: nat)
    requires ReachedIn(s, link, k) && link.delay as real * VELOCITY <= MAX_DISTANCE
    ensures TwoInv(s, link)
    decreases k
  {
    hide TwoInv, Next, Disciplined, InitialSystem;
    if k == 0 {
      InitialTwoInv(link);
    } else {
      var was: System, step: Step :| ReachedIn(was, link, k - 1) && DisciplinedStep(was, step, s, link);
      RunKeepsTwoInv(was, link, k - 1);
      StepKeepsTwoInv(was, step, link);
    }
  }

  lemma ReachedInv(s: System, link: Link)
    requires Reached(s, link) && link.delay as real * VELOCITY <= MAX_DISTANCE
    ensures TwoInv(s, link)
  {
    hide TwoInv, ReachedIn;
    var k: nat :| ReachedIn(s, link, k);
    RunKeepsTwoInv(s, link, k);
  }

  /** Whole-run exactness. Whatever state a run reaches, for a drone whose initialization met no stale record: every
      stored calculation record holds exactly twice the delay, the initial estimates summed so far are exactly the
      delay each, and the last distance, if there is one, is exactly the delay times VELOCITY. */
  lemma WholeRunExactness(s: System, link: Link, d: nat)
    requires Reached(s, link) && link.delay as real * VELOCITY <= MAX_DISTANCE
    requires |s| == 2 && d < 2 && Shaped(s) && s[d].clean[1 - d]
    ensures forall b <- Buf(s[d], 1 - d).send + Buf(s[d], 1 - d).receive :: b.sumTof == 2.0 * link.delay as real
    ensures |Buf(s[d], 1 - d).send| < MAX_INITIAL_CALCULATION ==>
              s[d].node.initTofSum == link.delay * |Buf(s[d], 1 - d).send|
    ensures s[d].node.lastD.Some? ==> s[d].node.lastD.value == link.delay as real * VELOCITY
  {
    hide Inv, DistanceOf, Reached, Dichotomy, Drained, HeardBefore, KnewAll, Accounted, Covered, Timed;
    ReachedInv(s, link);
    TwoSides(s, link, d);
    assert ExactDrone(s[d], 1 - d, link.delay);
  }

  /** What such a drone reports while processing its next message is exactly the true distance, whichever branch of the
      recurrence runs; and once its buffer is initialized every message that fills a record gives a report. */
  lemma WholeRunReports(s: System, link: Link, d: nat)
    requires Reached(s, link) && link.delay as real * VELOCITY <= MAX_DISTANCE
    requires |s| == 2 && d < 2 && Shaped(s) && s[d].inbox != [] && StaysClean(s[d], 1 - d)
    ensures var report := Process(s[d].node, s[d].inbox[0]).report;
            && (report.Some? ==>
                  report.value == Distance(link.delay as real * VELOCITY, link.delay as real * VELOCITY))
            && (!Initializing(Buf(s[d], 1 - d)) && Reaches(Rl(s[d], 1 - d), s[d].inbox[0].msg.seqNo) ==> report.Some?)
  {
    hide PairInv, OwnInv, Outgoing, SideInv, Dichotomy, Inv, Process, DistanceOf, Reached, Rl, Buf, Initializing,
         Reaches, NoStale;
    ReachedInv(s, link);
    TwoSides(s, link, d);
    InvParts(s, d, 1 - d);
    HeadSender(s[d], d, 2);
    ProcessExact(s[d], s[1 - d], d, 1 - d, link);
    if !Initializing(Buf(s[d], 1 - d)) && Reaches(Rl(s[d], 1 - d), s[d].inbox[0].msg.seqNo) {
      ProcessReports(s[d], s[1 - d], d, 1 - d, link);
    }
  }
}
