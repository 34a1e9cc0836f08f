/** Progress of two drones that take turns on a static link without loss: after five messages each both are initialized,
    and from then on every message gives the true distance. */
module Alternation {
  import opened Config
  import opened RangingListSpec
  import opened RangingBufferSpec
  import opened NodeSpec
  import opened LossTolerance
  import opened ExactlyOnce
  import opened Phases
  import opened Pairing
  import opened Exactness
  import opened Protocol
  import opened ProtocolProof
  import opened ProtocolTheorems
  import opened SharedSum
  import opened Progress
  import opened TwoDrones
  import opened Conversation

  /** A turn of drone d: it generates and sends a message at `now`, which the other drone receives at `arrival` and
      processes. The middle states are named for what has just happened. */
  datatype Turn = Turn(generated: System, sent: System, delivered: System, processed: System, now: nat, arrival: nat)

  ghost predicate IsTurn(s: System, d: nat, turn: Turn, link: Link) {
    && d < 2
    && DisciplinedStep(s, GenerateStep(d), turn.generated, link)
    && DisciplinedStep(turn.generated, TransmitStep(d, turn.now), turn.sent, link)
    && DisciplinedStep(turn.sent, DeliverStep(1 - d, d, turn.arrival), turn.delivered, link)
    && DisciplinedStep(turn.delivered, ProcessStep(1 - d), turn.processed, link)
  }

  /** The states after k turns; drone 0 has the first one. */
  ghost predicate Alternated(s: System, k: nat, link: Link)
    decreases k
  {
    if k == 0 then s == InitialSystem(2)
    else
      var d := (k - 1) % 2;
      exists was: System, turn: Turn :: Alternated(was, k - 1, link) && IsTurn(was, d, turn, link)
        && s == turn.processed
  }

  /** Where the conversation stands after k turns: drone d speaks next, having sent c messages, and drone e has sent
      `own`; everything sent was heard and processed. */
  ghost predicate Resting(s: System, k: nat) {
    var (d, e, c, own) := (k % 2, 1 - k % 2, k / 2, (k + 1) / 2);
    && |s| == 2 && Shaped(s)
    && s[d].pending.None? && s[e].pending.None? && s[d].inbox == [] && s[e].inbox == []
    && |s[d].sent| == c == s[e].cursor[d] && |s[e].sent| == own == s[d].cursor[e]
    && Conversed(s[d], e, own, c) && Conversed(s[e], d, c, if own == 0 then 0 else own - 1)
    && (own >= 1 ==>
          && |s[e].origin| == own && |s[e].origin[own - 1].existing| == 2
          && s[e].origin[own - 1].existing[d] == c)
  }

  lemma InitialResting()
    ensures Resting(InitialSystem(2), 0)
  {
    hide Rl;
    InitialTables(0, 2, 1);
    InitialTables(1, 2, 0);
    assert UpTo(0) == [] && Seqs([]) == [];
  }

  /** The turn, seen as two halves. */
  lemma TurnHalves(s: System, d: nat, turn: Turn, link: Link)
    requires TwoInv(s, link) && IsTurn(s, d, turn, link) && link.delay as real * VELOCITY <= MAX_DISTANCE
    ensures TwoInv(turn.sent, link) && TwoInv(turn.delivered, link) && TwoInv(turn.processed, link)
    ensures turn.now > s[d].clock && s[d].pending.None?
  {
    hide TwoInv, Next, Disciplined, Enabled;
    StepKeepsTwoInv(s, GenerateStep(d), link);
    StepKeepsTwoInv(turn.generated, TransmitStep(d, turn.now), link);
    StepKeepsTwoInv(turn.sent, DeliverStep(1 - d, d, turn.arrival), link);
    StepKeepsTwoInv(turn.delivered, ProcessStep(1 - d), link);
    TransmitTime(s, d, turn.generated, turn.now);
  }

  lemma TransmitTime(s: System, d: nat, s1: System, now: nat)
    requires Shaped(s) && d < |s| && Enabled(s, GenerateStep(d)) && s1 == Next(s, GenerateStep(d))
    requires Shaped(s1) && Enabled(s1, TransmitStep(d, now))
    ensures now > s[d].clock && s[d].pending.None?
  {
    hide Generate, OriginNow;
  }

  /** The last own message left after everything heard so far. */
  lemma LastSendIsLater(x: Drone, y: Drone, d: nat, e: nat, n: nat, c: nat, own: nat)
    requires OwnInv(x, d, n) && OwnInv(y, e, n) && PairInv(x, y, d, e) && e < n && HeardBefore(x, e)
    requires Seqs(Rl(x, e)) == UpTo(c) && own >= 1 && |x.sent| == own
    requires |x.origin| >= own && e < |x.origin[own - 1].existing| && x.origin[own - 1].existing[e] == c
    ensures |x.node.history| == own && x.node.history[own - 1].time > LastRx(Rl(x, e))
  {
    hide PushedOnce, QueuedPast, BuffersOk, MessageOk, Distinct, Rl, RxIncreasing, QueuedOk, SendListTrue, Tolerant,
         SoundNode, Seqs;
    NoGaps(Rl(x, e), c);
    if c >= 1 { NewestIs(Rl(x, e)); }
  }

  lemma TwoParts(s: System, link: Link, d: nat)
    requires TwoInv(s, link) && d < 2 && link.delay as real * VELOCITY <= MAX_DISTANCE
    ensures Inv(s) && Shaped(s) && |s| == 2
    ensures var e := 1 - d;
            && OwnInv(s[d], d, 2) && OwnInv(s[e], e, 2) && Outgoing(s[d], e) && Outgoing(s[e], d)
            && PairInv(s[d], s[e], d, e) && PairInv(s[e], s[d], e, d) && HeardBefore(s[d], e)
            && GoodLink(TruthOf(s[d], s[e], d, e), Seen(link, d))
  {
    hide *;
    TwoInvShape(s, link);
    var e := 1 - d;
    TwoSides(s, link, d);
    InvParts(s, d, e);
    SidesMeet(s[d], s[e], d, e, link);
  }

  lemma TwoInvShape(s: System, link: Link)
    requires TwoInv(s, link)
    ensures Inv(s) && Shaped(s) && |s| == 2
  {
    hide Inv, SideInv, Dichotomy;
  }

  lemma SidesMeet(x: Drone, y: Drone, d: nat, e: nat, link: Link)
    requires d < 2 && e == 1 - d && OwnInv(x, d, 2) && OwnInv(y, e, 2) && PairInv(x, y, d, e) && PairInv(y, x, e, d)
    requires SideInv(x, y, d, e, link) && SideInv(y, x, e, d, link) && Dichotomy(x, y, d, e)
    requires link.delay as real * VELOCITY <= MAX_DISTANCE
    ensures e < |x.heard| && d < |y.heard| && HeardBefore(x, e) && GoodLink(TruthOf(x, y, d, e), Seen(link, d))
  {
    hide *;
    OwnShape(x, d);
    OwnShape(y, e);
    SideHeardBefore(x, y, d, e, link);
    LinkIsGood(x, y, d, e, link);
  }

  lemma SideHeardBefore(x: Drone, y: Drone, d: nat, e: nat, link: Link)
    requires SideInv(x, y, d, e, link)
    ensures HeardBefore(x, e)
  {
    hide Drained, HeardBefore, KnewAll, Accounted, Covered, ExactDrone, Timed, InOrder;
  }

  lemma ArrivalIsLater(s: System, e: nat, arrival: nat, s': System, link: Link)
    requires e < 2 && DisciplinedStep(s, DeliverStep(e, 1 - e, arrival), s', link)
    ensures arrival > s[e].clock && s[e].cursor[1 - e] < |s[1 - e].sent|
  {
  }

  /** The message of a turn covers every message of the other drone. */
  lemma TurnKnows(s: System, k: nat, y: Drone, now: nat)
    requires Inv(s) && Resting(s, k) && Spoke(s, k % 2, y, now)
    ensures var (d, e, c, own) := (k % 2, 1 - k % 2, k / 2, (k + 1) / 2);
            && |y.sent| == c + 1 && y.sent[c].src == Addr(d) && y.sent[c].seqNo == c + 1
            && Known(y, y.sent[c].seqNo, e) == own && Seqs(Rl(y, e)) == UpTo(own)
            && (own >= 1 ==> UnitTo(y.sent[c].units, Addr(e)) != NULL_INDEX)
  {
    hide Inv, OwnInv, Rl, Seqs, UnitTo, Woven, Pairs;
    var d, e, own := k % 2, 1 - k % 2, (k + 1) / 2;
    OwnOf(s, d);
    NextNumber(s, d);
    RlOf(s[d], y);
    NoGaps(Rl(s[d], e), own);
    assert s[d].node.address == Addr(d) by { OwnDistinct(s[d], d, 2); }
    if own >= 1 { GeneratedUnit(s[d], d, e); }
  }

  /** The four steps of a turn of d, as one speaking and one hearing. */
  ghost predicate SpokenAndHeard(s: System, d: nat, e: nat, turn: Turn)
    requires Shaped(s) && |s| == 2 && d < 2 && e == 1 - d
  {
    && |turn.sent| == |turn.delivered| == |turn.processed| == 2
    && Shaped(turn.sent) && Shaped(turn.delivered) && Shaped(turn.processed)
    && turn.sent == s[d := turn.sent[d]] && Spoke(s, d, turn.sent[d], turn.now)
    && s[e].cursor[d] < |turn.sent[d].sent|
    && var m := turn.sent[d].sent[s[e].cursor[d]];
       && m.src == Addr(d) && m.seqNo == s[e].cursor[d] + 1
       && turn.delivered == turn.sent[e := Delivered(s[e], d, m, turn.arrival)]
       && turn.delivered[e].inbox == [Inbound(m, turn.arrival)]
       && turn.processed == turn.sent[e := ProcessedNext(turn.delivered[e], d, Known(turn.sent[d], m.seqNo, e))]
       && HeardNext(s[e], turn.processed[e], d, turn.arrival)
  }

  lemma TurnSteps(s: System, d: nat, e: nat, turn: Turn, link: Link)
    requires TwoInv(s, link) && IsTurn(s, d, turn, link) && d < 2 && e == 1 - d && s[e].inbox == []
    requires link.delay as real * VELOCITY <= MAX_DISTANCE
    ensures Shaped(s) && |s| == 2 && SpokenAndHeard(s, d, e, turn) && |turn.delivered| == 2
    ensures TwoInv(turn.delivered, link) && TwoInv(turn.processed, link)
  {
    hide TwoInv, Inv, Next, Enabled, Disciplined, Delivered, ProcessedNext, Known, Spoke, HeardNext, GoodLink,
         HeardBefore, OwnInv, PairInv, Outgoing;
    TurnHalves(s, d, turn, link);
    TwoParts(s, link, d);
    var s1, s2 := Speaks(s, d, turn.now);
    ArrivalIsLater(turn.sent, e, turn.arrival, turn.delivered, link);
    TwoParts(turn.sent, link, d);
    var s3, s4 := Hears(turn.sent, e, d, turn.arrival);
  }

  /** What the hearing drone holds after the turn. */
  lemma TurnConverses(s: System, k: nat, d: nat, e: nat, turn: Turn, link: Link)
    requires TwoInv(s, link) && Resting(s, k) && d == k % 2 && e == 1 - d && IsTurn(s, d, turn, link)
    requires link.delay as real * VELOCITY <= MAX_DISTANCE && SpokenAndHeard(s, d, e, turn)
    requires TwoInv(turn.delivered, link)
    ensures Conversed(turn.processed[e], d, k / 2 + 1, (k + 1) / 2)
  {
    hide TwoInv, Inv, Next, Enabled, Conversed, Rl, GoodLink, HeardBefore, OwnInv, PairInv, Outgoing, ProcessedNext,
         Delivered, Generate, UnitTo, Disciplined, Known, Room, Seqs, IsTurn, HeardNext;
    var c, own := k / 2, (k + 1) / 2;
    var x, y, m := turn.delivered[e], turn.sent[d], turn.sent[d].sent[c];
    TwoParts(s, link, d);
    TwoParts(turn.delivered, link, e);
    TurnKnows(s, k, y, turn.now);
    DeliveredKeeps(s[e], d, m, turn.arrival);
    ConversedSame(s[e], x, d, c, if own == 0 then 0 else own - 1);
    OnlyNeighbour(x, e, d);
    if own == 0 {
      HearsFirst(x, y, e, d, 2);
    } else {
      ConversedSeqs(x, d, c, own - 1);
      LastSendIsLater(x, y, e, d, 2, c, own);
      HearsNext(x, y, e, d, 2, Seen(link, e), c, own - 1);
    }
  }

  lemma ConversedSeqs(x: Drone, e: nat, c: nat, q: nat)
    requires Conversed(x, e, c, q)
    ensures Seqs(Rl(x, e)) == UpTo(c)
  {
    hide Rl, Seqs, Woven, Pairs;
  }

  lemma TurnRests(s: System, k: nat, turn: Turn, link: Link)
    requires TwoInv(s, link) && Resting(s, k) && IsTurn(s, k % 2, turn, link)
    requires link.delay as real * VELOCITY <= MAX_DISTANCE
    ensures TwoInv(turn.processed, link) && Resting(turn.processed, k + 1)
  {
    hide TwoInv, Inv, Enabled, Conversed, GoodLink, HeardBefore, ProcessedNext, Delivered, Generate, IsTurn, Rl;
    var d, e, c, own := k % 2, 1 - k % 2, k / 2, (k + 1) / 2;
    TurnSteps(s, d, e, turn, link);
    TurnConverses(s, k, d, e, turn, link);
    ConversedSame(s[d], turn.sent[d], e, own, c);
    NextNumber(s, d) by { TwoParts(s, link, d); }
    assert (k + 1) % 2 == e && (k + 1) / 2 == own && (k + 2) / 2 == c + 1;
  }

  lemma {:induction false} AlternationRests(s: System, k: nat, link: Link)
    requires Alternated(s, k, link) && link.delay as real * VELOCITY <= MAX_DISTANCE
    ensures TwoInv(s, link) && Resting(s, k)
    decreases k
  {
    hide TwoInv, IsTurn, Resting, InitialSystem;
    if k == 0 {
      InitialTwoInv(link);
      InitialResting();
    } else {
      var d := (k - 1) % 2;
      var was: System, turn: Turn :| Alternated(was, k - 1, link) && IsTurn(was, d, turn, link) && s == turn.processed;
      AlternationRests(was, k - 1, link);
      TurnRests(was, k - 1, turn, link);
    }
  }

  /** Progress. After ten turns, five messages of each, both drones are initialized: no message was wasted. */
  lemma BothAreInitialized(s: System, k: nat, link: Link)
    requires Alternated(s, k, link) && link.delay as real * VELOCITY <= MAX_DISTANCE && k >= 10
    ensures |s| == 2 && !Initializing(Buf(s[0], 1)) && !Initializing(Buf(s[1], 0))
  {
    hide TwoInv, Woven, Seqs, Rl, Buf, Resting, Alternated, Pairs, Inv, OwnInv, PairInv, Outgoing, GoodLink,
         HeardBefore;
    AlternationRests(s, k, link);
    TwoParts(s, link, 0);
    RestingPairs(s, k, 0);
    RestingPairs(s, k, 1);
    AllPairsStored(s[0], 0, 1, 2);
    AllPairsStored(s[1], 1, 0, 2);
  }

  lemma RestingPairs(s: System, k: nat, x: nat)
    requires Resting(s, k) && k >= 10 && x < 2
    ensures Pairs(Buf(s[x], 1 - x)) >= MAX_INITIAL_CALCULATION
  {
    hide Woven, Seqs, Rl, Buf, Pairs;
  }

  /** And from then on every message gives a report, which is exactly the true distance. */
  lemma EveryTurnReports(s: System, k: nat, turn: Turn, link: Link)
    requires Alternated(s, k, link) && link.delay as real * VELOCITY <= MAX_DISTANCE && k >= 10
    requires IsTurn(s, k % 2, turn, link)
    ensures var e := 1 - k % 2;
            && |turn.delivered| == 2 && turn.delivered[e].inbox != []
            && Process(turn.delivered[e].node, turn.delivered[e].inbox[0]).report
               == Some(Distance(link.delay as real * VELOCITY, link.delay as real * VELOCITY))
  {
    hide TwoInv, Inv, Enabled, Process, SpokenAndHeard, IsTurn, DistanceOf, Buf, Initializing, Alternated, Resting;
    var d, e := k % 2, 1 - k % 2;
    AlternationRests(s, k, link);
    RestingShape(s, k);
    TurnSteps(s, d, e, turn, link);
    BothAreInitialized(s, k, link);
    TurnReports(s, k, d, e, turn, link);
  }

  /** And every message stores new records: one in the receive half, and at least one in the send half. */
  lemma EveryTurnStores(s: System, k: nat, turn: Turn, link: Link)
    requires Alternated(s, k, link) && link.delay as real * VELOCITY <= MAX_DISTANCE && k >= 10
    requires IsTurn(s, k % 2, turn, link)
    ensures var (d, e) := (k % 2, 1 - k % 2);
            && |s| == |turn.processed| == 2
            && var (before, after) := (Buf(s[e], d), Buf(turn.processed[e], d));
               |after.receive| == |before.receive| + 1 && |after.send| > |before.send|
  {
    hide TwoInv, Inv, Enabled, Process, SpokenAndHeard, IsTurn, Buf, Initializing, Alternated, Resting;
    var d, e := k % 2, 1 - k % 2;
    AlternationRests(s, k, link);
    RestingShape(s, k);
    TurnSteps(s, d, e, turn, link);
    BothAreInitialized(s, k, link);
    TurnStores(s, k, d, e, turn, link);
  }

  lemma TurnStores(s: System, k: nat, d: nat, e: nat, turn: Turn, link: Link)
    requires Resting(s, k) && k >= 10 && d == k % 2 && e == 1 - d && SpokenAndHeard(s, d, e, turn) && TwoInv(s, link)
    requires TwoInv(turn.delivered, link) && link.delay as real * VELOCITY <= MAX_DISTANCE
    requires !Initializing(Buf(s[e], d))
    ensures |turn.processed| == 2
    ensures var (before, after) := (Buf(s[e], d), Buf(turn.processed[e], d));
            |after.receive| == |before.receive| + 1 && |after.send| > |before.send|
  {
    hide TwoInv, Inv, Conversed, GoodLink, HeardBefore, Process, Delivered, ProcessedNext, Rl, PairInv, OwnInv,
         Outgoing, Buf, Known, SideInv, Dichotomy, Seqs, Reaches, StaysClean, Initializing, Spoke, HeardNext, Room,
         UnitTo, Generate;
    var c, own := k / 2, (k + 1) / 2;
    var x, y := turn.delivered[e], turn.delivered[d];
    TwoParts(s, link, d);
    TwoParts(turn.delivered, link, e);
    TwoSides(turn.delivered, link, e);
    TurnKnows(s, k, y, turn.now);
    DeliveredKeeps(s[e], d, turn.sent[d].sent[c], turn.arrival);
    ConversedSeqs(s[e], d, c, own - 1);
    ConversedAcked(s[e], d, c, own - 1);
    RlOf(s[e], x);
    OnlyNeighbour(x, e, d);
    CleanNow(x, y, e, d, 2, c);
    OwnShape(x, e);
    CleanBefore(x, d);
    BufOf(s[e], x, d);
    LastSendIsLater(x, y, e, d, 2, c, own);
    MessageStores(x, y, e, d, link, own - 1);
  }

  lemma ConversedAcked(x: Drone, e: nat, c: nat, q: nat)
    requires Conversed(x, e, c, q)
    ensures e < |x.acked| && x.acked[e] == q
  {
    hide Rl, Seqs, Woven, Pairs;
  }

  /** A message in reach with one new report, at an initialized drone. */
  lemma MessageStores(x: Drone, y: Drone, d: nat, e: nat, link: Link, q: nat)
    requires d < 2 && e == 1 - d && OwnInv(x, d, 2) && OwnInv(y, e, 2) && PairInv(x, y, d, e) && PairInv(y, x, e, d)
    requires Outgoing(y, d) && SideInv(x, y, d, e, link) && SideInv(y, x, e, d, link) && Dichotomy(x, y, d, e)
    requires x.inbox != [] && x.inbox[0].msg.src == Addr(e) && link.delay as real * VELOCITY <= MAX_DISTANCE
    requires StaysClean(x, e) && !Initializing(Buf(x, e)) && Reaches(Rl(x, e), x.inbox[0].msg.seqNo)
    requires x.acked[e] == q && Seqs(Rl(y, d)) == UpTo(q + 1) && |x.sent| == q + 1
    requires Known(y, x.inbox[0].msg.seqNo, d) == q + 1 && UnitTo(x.inbox[0].msg.units, Addr(d)) != NULL_INDEX
    requires x.node.history[q].time > LastRx(Rl(x, e))
    ensures var (before, after) := (Buf(x, e), Buf(ProcessedNext(x, e, Known(y, x.inbox[0].msg.seqNo, d)), e));
            |after.receive| == |before.receive| + 1 && |after.send| > |before.send|
  {
    hide OwnInv, PairInv, Outgoing, SideInv, Dichotomy, Process, ProcessFor, Rl, Sl, Seqs, Known, UnitTo, Table,
         GoodLink, GoodReception, ExactTable, InOrder, Initializing, StaysClean, Reaches, PushesFollow, LastRx, Room,
         Distinct;
    OnlyNeighbour(x, d, e);
    OwnShape(x, d);
    OwnDistinct(x, d, 2);
    CleanBefore(x, e);
    HeadIsGood(x, y, d, e, 2);
    LinkIsGood(x, y, d, e, link);
    PushesFollowPrevious(x, y, d, e, link);
    OneMorePush(x, y, d, e, 2, q);
    TableLists(x, e);
    SidesOrder(x, y, d, e, link);
    ReachesSomething(Rl(x, e), x.inbox[0].msg.seqNo);
    NewestTime(Rl(x, e));
    TableAfterProcess(x.node, x.inbox[0], Addr(e));
    MessageAddsRecords(TruthOf(x, y, d, e), Seen(link, d), Table(x.node, Addr(e)), x.node, x.inbox[0]);
    LongerPrefix(Sl(x, e), ProcessFor(Table(x.node, Addr(e)), x.node, x.inbox[0]).0.nb.sendList, LastRx(Rl(x, e)));
  }

  lemma LongerPrefix(before: Log, after: Log, prev: nat)
    requires PushesFollow(before, after, prev) && before != after
    ensures |after| > |before|
  {
  }

  lemma ReachesSomething(log: Log, m: nat)
    requires Reaches(log, m)
    ensures log != []
  {
  }

  lemma SidesOrder(x: Drone, y: Drone, d: nat, e: nat, link: Link)
    requires SideInv(x, y, d, e, link) && SideInv(y, x, e, d, link) && e < |x.clean| && x.clean[e]
    ensures e < |x.heard| && d < |y.heard| && InOrder(x.heard[e]) && InOrder(y.heard[d])
    ensures ExactTable(Table(x.node, Addr(e)), x.node.initTofSum, link.delay)
  {
    hide Drained, HeardBefore, KnewAll, Accounted, Covered, InOrder, ExactTable;
  }

  lemma RestingShape(s: System, k: nat)
    requires Resting(s, k)
    ensures |s| == 2 && Shaped(s) && s[1 - k % 2].inbox == []
  {
  }

  lemma TurnReports(s: System, k: nat, d: nat, e: nat, turn: Turn, link: Link)
    requires Resting(s, k) && k >= 10 && d == k % 2 && e == 1 - d && SpokenAndHeard(s, d, e, turn)
    requires TwoInv(turn.delivered, link) && link.delay as real * VELOCITY <= MAX_DISTANCE
    requires !Initializing(Buf(s[e], d))
    ensures turn.delivered[e].inbox != []
    ensures Process(turn.delivered[e].node, turn.delivered[e].inbox[0]).report == Some(TrueDistance(link.delay))
  {
    hide TwoInv, Inv, Conversed, GoodLink, HeardBefore, Process, Delivered, ProcessedNext, Rl, PairInv, OwnInv,
         Outgoing, DistanceOf, Buf, Known, SideInv, Dichotomy, Seqs, Reaches, StaysClean, Initializing, Spoke,
         HeardNext, TrueDistance, Room;
    var c, own := k / 2, (k + 1) / 2;
    var x, y := turn.delivered[e], turn.delivered[d];
    TwoParts(turn.delivered, link, e);
    TwoSides(turn.delivered, link, e);
    DeliveredKeeps(s[e], d, turn.sent[d].sent[c], turn.arrival);
    ConversedSeqs(s[e], d, c, own - 1);
    RlOf(s[e], x);
    OnlyNeighbour(x, e, d);
    CleanNow(x, y, e, d, 2, c);
    OwnShape(x, e);
    CleanBefore(x, d);
    BufOf(s[e], x, d);
    ProcessReports(x, y, e, d, link);
  }

  lemma BufOf(x: Drone, x': Drone, e: nat)
    requires x.node == x'.node
    ensures Buf(x, e) == Buf(x', e)
  {
  }

  // ---------------------------------------------------------------- such runs exist

  /** Both clocks are behind the time of turn k. */
  ghost predicate Before(s: System, k: nat, link: Link)
    requires |s| == 2
  {
    s[0].clock < TurnTime(k, link) && s[1].clock < TurnTime(k, link) + link.offset
  }

  /** When turn k begins on the clock of drone 0. */
  function TurnTime(k: nat, link: Link): nat { (k + 1) * (link.delay + 1) }

  lemma TurnTimeNext(k: nat, link: Link)
    ensures TurnTime(k + 1, link) == TurnTime(k, link) + link.delay + 1
  {
  }

  lemma TakeTurn(s: System, k: nat, link: Link) returns (turn: Turn)
    requires TwoInv(s, link) && Resting(s, k) && |s| == 2 && Before(s, k, link)
    requires link.delay as real * VELOCITY <= MAX_DISTANCE && link.offset >= 0
    requires TurnTime(k, link) + link.delay + link.offset < UWB_MAX_TIMESTAMP
    ensures IsTurn(s, k % 2, turn, link) && |turn.processed| == 2 && Before(turn.processed, k + 1, link)
  {
    hide TwoInv, Inv, Conversed, OwnInv, PairInv, Outgoing, GoodLink, HeardBefore, ProcessedNext, Delivered, Generate,
         Known, TurnTime, Next, OriginNow;
    var d, e := k % 2, 1 - k % 2;
    var now := if d == 0 then TurnTime(k, link) else TurnTime(k, link) + link.offset;
    var arrival := if d == 0 then now + link.offset + link.delay else now - link.offset + link.delay;
    TwoParts(s, link, d);
    OwnDistinct(s[d], d, 2);
    var s1, s2 := Speaks(s, d, now);
    var s3, s4 := Hears(s2, e, d, arrival);
    turn := Turn(s1, s2, s3, s4, now, arrival);
    TurnTimeNext(k, link);
  }

  lemma {:induction false} AlternationExists(k: nat, link: Link) returns (s: System)
    requires link.delay as real * VELOCITY <= MAX_DISTANCE && link.offset >= 0
    requires TurnTime(k, link) + link.offset < UWB_MAX_TIMESTAMP
    ensures Alternated(s, k, link) && |s| == 2 && Before(s, k, link)
    decreases k
  {
    hide TwoInv, IsTurn, Resting, InitialSystem, Before, TurnTime;
    if k == 0 {
      s := InitialSystem(2);
      StartsBefore(link);
    } else {
      TurnTimeNext(k - 1, link);
      var was := AlternationExists(k - 1, link);
      AlternationRests(was, k - 1, link);
      var turn := TakeTurn(was, k - 1, link);
      s := turn.processed;
      var d := (k - 1) % 2;
      assert IsTurn(was, d, turn, link);
    }
  }

  lemma StartsBefore(link: Link)
    requires link.offset >= 0
    ensures |InitialSystem(2)| == 2 && Before(InitialSystem(2), 0, link)
  {
  }

  /** An alternating run is a run of the half-duplex static link. */
  lemma {:induction false} AlternationIsReached(s: System, k: nat, link: Link)
    requires Alternated(s, k, link)
    ensures ReachedIn(s, link, 4 * k)
    decreases k
  {
    hide InitialSystem, DisciplinedStep;
    if k != 0 {
      var d := (k - 1) % 2;
      var was: System, turn: Turn :| Alternated(was, k - 1, link) && IsTurn(was, d, turn, link) && s == turn.processed;
      AlternationIsReached(was, k - 1, link);
      assert ReachedIn(turn.generated, link, 4 * k - 3);
      assert ReachedIn(turn.sent, link, 4 * k - 2);
      assert ReachedIn(turn.delivered, link, 4 * k - 1);
    }
  }
}
