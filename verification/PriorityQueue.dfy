/** The priority queue over runs: from which order of senders it stays a permutation of the tables. */
module PriorityQueue {
  import opened Config
  import opened NodeSpec
  import opened Phases

  /** The queue names every table exactly once. */
  ghost predicate Fair(n: Node) { IsPermutation(n.priority, |n.neighbours|) }

  /** The table at the tail of the queue. */
  function Tail(n: Node): int { if n.neighbours == [] then NULL_INDEX else n.priority[|n.neighbours| - 1] }

  /** The entries before position `Tail` are as a reset leaves them. */
  ghost predicate ResetUpToTail(n: Node) { ResetUpTo(n.priority, Tail(n)) }

  ghost predicate ResetUpTo(priority: seq<nat>, tail: int) {
    forall j :: 0 <= j < tail && j < |priority| ==> priority[j] == j
  }

  function Addresses(neighbours: seq<Neighbour>): seq<nat> {
    seq(|neighbours|, i requires 0 <= i < |neighbours| => neighbours[i].address)
  }

  function IndexFrom(known: seq<nat>, address: nat, i: nat): (r: int)
    requires i <= |known|
    ensures r == NULL_INDEX ==> forall j :: i <= j < |known| ==> known[j] != address
    ensures r != NULL_INDEX ==> i <= r < |known| && known[r] == address
    ensures forall j :: i <= j < r ==> known[j] != address
    decreases |known| - i
  {
    if i == |known| then NULL_INDEX else if known[i] == address then i else IndexFrom(known, address, i + 1)
  }

  lemma {:induction false} IndexIsFindFrom(neighbours: seq<Neighbour>, address: nat, i: nat)
    requires i <= |neighbours|
    ensures IndexFrom(Addresses(neighbours), address, i) == FindFrom(neighbours, address, i)
    decreases |neighbours| - i
  {
    if i < |neighbours| { IndexIsFindFrom(neighbours, address, i + 1); }
  }

  /** The order of the senders, judged without any drone: every message comes from a new neighbour, from the neighbour
      registered last, or from one registered before the neighbour heard before; messages of further drones are ignored
      once ten are known. */
  predicate Falling(known: seq<nat>, last: int, events: seq<Event>)
    decreases |events|
  {
    if events == [] then true
    else
      match events[0]
      case Sent(_) => Falling(known, last, events[1..])
      case Received(m) =>
        var i := IndexFrom(known, m.msg.src, 0);
        if i != NULL_INDEX then (i == |known| - 1 || i < last) && Falling(known, i, events[1..])
        else if |known| < TABLE_SET_NEIGHBOR_NUM then Falling(known + [m.msg.src], |known|, events[1..])
        else Falling(known, last, events[1..])
  }

  // ---------------------------------------------------------------- one message

  lemma AddressesAfter(n: Node, m: Inbound)
    ensures var i := IndexFrom(Addresses(n.neighbours), m.msg.src, 0);
            var after := Process(n, m).node;
            && i == FindNeighbour(n.neighbours, m.msg.src)
            && (i == NULL_INDEX && |n.neighbours| >= TABLE_SET_NEIGHBOR_NUM ==> after == n)
            && (i == NULL_INDEX && |n.neighbours| < TABLE_SET_NEIGHBOR_NUM ==>
                  && Addresses(after.neighbours) == Addresses(n.neighbours) + [m.msg.src]
                  && after.priority == UpdatePriority(n.priority, |n.neighbours|, |n.neighbours| + 1))
            && (i != NULL_INDEX ==>
                  && 0 <= i < |n.neighbours| && Addresses(after.neighbours) == Addresses(n.neighbours)
                  && after.priority == UpdatePriority(n.priority, i, |n.neighbours|))
  {
    hide ProcessFor, UpdatePriority, Compensate, FindNeighbour, Register;
    IndexIsFindFrom(n.neighbours, m.msg.src, 0);
    FindNeighbourIsFindFrom(n.neighbours, m.msg.src);
    var neighbours := Register(n.neighbours, m.msg.src);
    var i := FindNeighbour(neighbours, m.msg.src);
    if i != NULL_INDEX { ProcessForKeeps(neighbours[i], n, m); }
  }

  /** A message from a known neighbour: the queue stays fair exactly if that neighbour was registered last or stands
      before the one at the tail. */
  lemma HearingKnown(n: Node, n': Node, i: nat)
    requires Fair(n) && ResetUpToTail(n) && i < |n.neighbours| == |n'.neighbours|
    requires n'.priority == UpdatePriority(n.priority, i, |n.neighbours|)
    ensures Fair(n') <==> i == |n.neighbours| - 1 || i < Tail(n)
    ensures ResetUpToTail(n') && Tail(n') == i
  {
    hide UpdatePriority;
    var count := |n.neighbours|;
    UpdatePriorityIsPermutation(n.priority, i, count);
    UpdateShape(n.priority, i, count);
    if i < Tail(n) { BehindPrefix(n.priority, i, count); }
  }

  lemma BehindPrefix(p: seq<nat>, i: nat, n: nat)
    requires i < n <= |p| && forall j :: 0 <= j <= i ==> p[j] == j
    ensures IsPermutation(p, n) ==> forall j :: i < j < n ==> i < p[j]
  {
    if j :| i < j < n && p[j] <= i { assert p[p[j]] == p[j]; }
  }

  /** updatePriority resets the first i entries, lets those behind position i move up in their order, puts i behind them
      and touches nothing beyond. */
  lemma UpdateShape(priority: seq<nat>, i: nat, n: nat)
    requires i < n <= |priority|
    ensures var r := UpdatePriority(priority, i, n);
            && |r| == |priority| && r[n - 1] == i && (forall j :: 0 <= j < i ==> r[j] == j)
            && r[i..n - 1] == priority[i + 1..n] && r[n..] == priority[n..]
  {
  }

  /** What its comment promises, to push the neighbour to the tail: the other entries keep their order, exactly if the
      first i + 1 entries of the queue are, apart from i, the tables before i in order. */
  lemma PushesToTailIff(priority: seq<nat>, i: nat, n: nat, k: nat)
    requires i < n <= |priority| && IsPermutation(priority, n) && k < n && priority[k] == i
    ensures UpdatePriority(priority, i, n)[..n] == ToTail(priority, k, n)
            <==> k <= i
                 && (forall j :: 0 <= j < k ==> priority[j] == j) && (forall j :: k < j <= i ==> priority[j] == j - 1)
  {
    var r, moved := UpdatePriority(priority, i, n), ToTail(priority, k, n);
    if k > i {
      LaterEntryIsLost(priority, i, n, k);
    } else if r[..n] == moved {
      assert forall j :: 0 <= j < i ==> r[..n][j] == j;
      assert forall j :: 0 <= j < k ==> moved[j] == priority[j];
      assert forall j :: k < j <= i ==> moved[j - 1] == priority[j];
    } else {
      var j :| 0 <= j < n && r[j] != moved[j];
      assert moved[j] == if j < k then priority[j] else if j < n - 1 then priority[j + 1] else i;
    }
  }

  /** The queue with the entry at position k at its tail. */
  function ToTail(priority: seq<nat>, k: nat, n: nat): (r: seq<nat>)
    requires k < n <= |priority|
    ensures |r| == n
  {
    priority[..k] + priority[k + 1..n] + [priority[k]]
  }

  /** Already a fair queue can fail it: hearing the neighbour registered last puts the one heard just before it at the
      head. */
  lemma LastOneReorders()
    ensures IsPermutation([2, 1, 0], 3)
    ensures UpdatePriority([2, 1, 0], 2, 3) == [0, 1, 2] && ToTail([2, 1, 0], 0, 3) == [1, 0, 2]
  {
    var p: seq<nat> := [2, 1, 0];
    assert p[0] == 2 && p[1] == 1 && p[2] == 0;
    assert p[..0] + p[1..3] + [p[0]] == [1, 0, 2];
  }

  lemma LaterEntryIsLost(priority: seq<nat>, i: nat, n: nat, k: nat)
    requires i < k < n <= |priority|
    ensures UpdatePriority(priority, i, n)[..n] == ToTail(priority, k, n) ==> !IsPermutation(priority, n)
  {
    if UpdatePriority(priority, i, n)[..n] == ToTail(priority, k, n) {
      assert ToTail(priority, k, n)[i] == priority[i];
      assert UpdatePriority(priority, i, n)[..n][i] == priority[i + 1];
    }
  }

  /** A new neighbour resets the queue. */
  lemma HearingNew(n: Node, n': Node)
    requires |n'.neighbours| == |n.neighbours| + 1
    requires n'.priority == UpdatePriority(n.priority, |n.neighbours|, |n'.neighbours|)
    ensures Fair(n') && ResetUpToTail(n') && Tail(n') == |n.neighbours|
  {
  }

  lemma SendingKeepsQueue(n: Node, time: nat)
    ensures var n' := Apply(n, Sent(time));
            && n'.neighbours == n.neighbours && n'.priority == n.priority
            && (Fair(n) ==> Fair(n')) && (ResetUpToTail(n) ==> ResetUpToTail(n')) && Tail(n') == Tail(n)
  {
    hide IsPermutation, ResetUpTo;
  }

  // ---------------------------------------------------------------- runs

  ghost predicate FairThroughout(n: Node, events: seq<Event>) {
    forall k :: 0 <= k <= |events| ==> Fair(Run(n, events[..k]))
  }

  lemma OnlyStart(n: Node)
    requires Fair(n)
    ensures FairThroughout(n, [])
  {
    hide Fair;
    forall k | 0 <= k <= 0
      ensures Fair(Run(n, [][..k]))
    {
      assert Run(n, [][..k]) == n;
    }
  }

  lemma FairAtStart(n: Node, events: seq<Event>)
    ensures FairThroughout(n, events) ==> Fair(n)
  {
    hide Fair;
    assert Run(n, events[..0]) == n;
  }

  /** The queue over a run. From any state with a fair queue, reset up to its tail: the queue is fair after every event
      of the run exactly if the order of the senders is falling. */
  lemma {:induction false} FairIffFalling(n: Node, events: seq<Event>)
    requires Fair(n) && ResetUpToTail(n)
    ensures FairThroughout(n, events) <==> Falling(Addresses(n.neighbours), Tail(n), events)
    decreases |events|
  {
    hide Process, IsPermutation, Fair, ResetUpToTail, Tail, IndexFrom, UpdatePriority, FairThroughout;
    if events == [] {
      assert FairThroughout(n, []) by { OnlyStart(n); }
    } else {
      var n1, rest := Apply(n, events[0]), events[1..];
      RunsFirst(n, events);
      match events[0] {
        case Sent(time) =>
          SendingKeepsQueue(n, time);
          FairIffFalling(n1, rest);
        case Received(m) =>
          AddressesAfter(n, m);
          var i := FindNeighbour(n.neighbours, m.msg.src);
          if i != NULL_INDEX {
            HearingKnown(n, n1, i);
            if Fair(n1) {
              FairIffFalling(n1, rest);
            } else {
              FairAtStart(n1, rest);
            }
          } else if |n.neighbours| < TABLE_SET_NEIGHBOR_NUM {
            HearingNew(n, n1);
            FairIffFalling(n1, rest);
          } else {
            FairIffFalling(n, rest);
          }
      }
    }
  }

  /** A property of all prefixes of a run is one of its start and of all prefixes of the rest. */
  lemma RunsFirst(n: Node, events: seq<Event>)
    requires events != []
    ensures var (n1, rest) := (Apply(n, events[0]), events[1..]);
            FairThroughout(n, events) <==> Fair(n) && FairThroughout(n1, rest)
  {
    hide Fair, Apply;
    var (n1, rest) := (Apply(n, events[0]), events[1..]);
    assert Run(n, events[..0]) == n;
    forall k | 0 <= k <= |rest|
      ensures Run(n, events[..k + 1]) == Run(n1, rest[..k])
    {
      assert events[..k + 1][1..] == rest[..k];
    }
    if FairThroughout(n, events) {
      forall k | 0 <= k <= |rest|
        ensures Fair(Run(n1, rest[..k]))
      {
        assert Fair(Run(n, events[..k + 1]));
      }
    } else {
      var k :| 0 <= k <= |events| && !Fair(Run(n, events[..k]));
      assert k != 0 ==> Run(n, events[..k]) == Run(n1, rest[..k - 1]);
    }
  }

  /** For a drone that starts: its queue is fair all the time exactly if the order of the senders is falling. */
  lemma QueueTheorem(address: nat, events: seq<Event>)
    ensures FairThroughout(InitialNode(address), events) <==> Falling([], NULL_INDEX, events)
  {
    hide Run, Falling, FairThroughout;
    assert Addresses([]) == [];
    FairIffFalling(InitialNode(address), events);
  }

  /** Two neighbours are enough: after messages from a, b and a the queue is [1, 0], and one more message from a leaves
      [0, 0] — b has dropped out of the queue. */
  lemma HeardTwiceInARow(address: nat, a1: Inbound, b: Inbound, a2: Inbound, a3: Inbound)
    requires a1.msg.src == a2.msg.src == a3.msg.src != b.msg.src
    ensures var n := Run(InitialNode(address), [Received(a1), Received(b), Received(a2)]);
            && |n.neighbours| == 2 && n.priority[..2] == [1, 0] && Fair(n)
            && |Process(n, a3).node.neighbours| == 2 && Process(n, a3).node.priority[..2] == [0, 0]
            && !Fair(Process(n, a3).node)
  {
    hide Process, UpdatePriority;
    var n0 := InitialNode(address);
    var n1 := Process(n0, a1).node;
    var n2 := Process(n1, b).node;
    var n3 := Process(n2, a2).node;
    assert Addresses([]) == [];
    AddressesAfter(n0, a1);
    AddressesAfter(n1, b);
    AddressesAfter(n2, a2);
    AddressesAfter(n3, a3);
    var last := Process(n3, a3).node.priority;
    TwoTables(n1.priority, n2.priority, n3.priority, last);
    assert last[0] == last[..2][0] && last[1] == last[..2][1];
    RunOfThree(n0, Received(a1), Received(b), Received(a2));
  }

  lemma TwoTables(p1: seq<nat>, p2: seq<nat>, p3: seq<nat>, p4: seq<nat>)
    requires |p1| >= 2 && p2 == UpdatePriority(p1, 1, 2) && p3 == UpdatePriority(p2, 0, 2)
    requires p4 == UpdatePriority(p3, 0, 2)
    ensures p3[..2] == [1, 0] && p4[..2] == [0, 0]
  {
    assert p4[0] == p4[..2][0];
  }

  lemma RunOfThree(n: Node, e: Event, f: Event, g: Event)
    ensures Run(n, [e, f, g]) == Apply(Apply(Apply(n, e), f), g)
  {
    hide Apply;
    assert [e, f, g][1..] == [f, g] && [f, g][1..] == [g] && [g][1..] == [];
    assert Run(Apply(Apply(n, e), f), [g]) == Apply(Apply(Apply(n, e), f), g);
  }
}
