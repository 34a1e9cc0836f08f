/** What a generated message reports, and how the priority queue chooses it. */
module QueueReports {
  import opened Config
  import opened RangingListSpec
  import opened NodeSpec
  import opened Phases
  import opened PriorityQueue
  import opened Protocol

  /** The newest receptions of the list, newest first, then nulls. */
  ghost predicate ListsNewest(rx: BodyStamps, log: Log) {
    forall k :: 0 <= k < MESSAGE_BODY_RX_SIZE ==>
      && (k < |log| ==> rx[k].seqNo == log[|log| - 1 - k].localSeq && rx[k].time == log[|log| - 1 - k].rx)
      && (k >= |log| ==> rx[k].seqNo == NULL_SEQ && rx[k].time == NULL_TIMESTAMP)
  }

  /** The units of a message are the reports to the neighbours that the queue names first, each with the newest
      receptions of that neighbour; units beyond the number of neighbours have no address and no receptions. */
  lemma UnitsFollowQueue(n: Node, i: nat)
    requires i < MESSAGE_BODY_UNIT_SIZE
    ensures i < |n.neighbours| ==>
              && n.priority[i] < |n.neighbours|
              && var (unit, nb) := (Generate(n).units[i], n.neighbours[n.priority[i]]);
                 unit.dest == nb.address && ListsNewest(unit.rx, nb.receiveList)
    ensures i >= |n.neighbours| ==>
              Generate(n).units[i].dest == NULL_ADDR && ListsNewest(Generate(n).units[i].rx, [])
  {
  }

  lemma {:induction false} RunKeepsDistinct(n: Node, events: seq<Event>)
    requires Distinct(n.neighbours)
    ensures Distinct(Run(n, events).neighbours)
    decreases |events|
  {
    hide Process, Distinct;
    if events != [] {
      match events[0] {
        case Received(m) => TableAfterProcess(n, m, m.msg.src);
        case Sent(_) =>
      }
      RunKeepsDistinct(Apply(n, events[0]), events[1..]);
    }
  }

  /** The neighbour just heard is at the tail of the queue. */
  lemma JustHeardIsTail(n: Node, m: Inbound)
    requires Room(n, m.msg.src)
    ensures var n' := Process(n, m).node;
            && n'.neighbours != [] && n'.priority[|n'.neighbours| - 1] < |n'.neighbours|
            && n'.neighbours[n'.priority[|n'.neighbours| - 1]].address == m.msg.src
  {
    hide ProcessFor, UpdatePriority, Compensate, FindNeighbour, Register;
    RoomMeansFound(n, m.msg.src);
    var neighbours := Register(n.neighbours, m.msg.src);
    var i := FindNeighbour(neighbours, m.msg.src);
    ProcessForKeeps(neighbours[i], n, m);
    UpdateShape(n.priority, i, |neighbours|);
  }

  /** The law of the queue over runs. Whenever a drone's queue is fair after a message, it next reports to the
      neighbours at the head of the queue: to three different ones, if it has so many, and never to the one just heard,
      if it has more. */
  lemma QueueReportsInTurn(address: nat, events: seq<Event>, m: Inbound)
    requires var n := Run(InitialNode(address), events); Room(n, m.msg.src) && Fair(Process(n, m).node)
    ensures var n' := Process(Run(InitialNode(address), events), m).node;
            var units := Generate(n').units;
            && (forall i :: 0 <= i < 3 && i < |n'.neighbours| ==>
                  n'.priority[i] < |n'.neighbours| && units[i].dest == n'.neighbours[n'.priority[i]].address)
            && (|n'.neighbours| >= 3 ==>
                  units[0].dest != units[1].dest && units[0].dest != units[2].dest && units[1].dest != units[2].dest)
            && (|n'.neighbours| > 3 ==> forall u <- units :: u.dest != m.msg.src)
  {
    hide Process, Generate, Run;
    var n := Run(InitialNode(address), events);
    var n' := Process(n, m).node;
    RunKeepsDistinct(InitialNode(address), events);
    TableAfterProcess(n, m, m.msg.src);
    JustHeardIsTail(n, m);
    UnitsFollowQueue(n', 0);
    UnitsFollowQueue(n', 1);
    UnitsFollowQueue(n', 2);
    DifferentTables(n');
  }

  lemma DifferentTables(n: Node)
    requires Fair(n) && Distinct(n.neighbours)
    ensures forall i, j :: 0 <= i < j < |n.neighbours| ==>
              && n.priority[i] < |n.neighbours| && n.priority[j] < |n.neighbours|
              && n.neighbours[n.priority[i]].address != n.neighbours[n.priority[j]].address
  {
    forall i, j | 0 <= i < j < |n.neighbours|
      ensures n.priority[i] < |n.neighbours| && n.priority[j] < |n.neighbours|
      ensures n.neighbours[n.priority[i]].address != n.neighbours[n.priority[j]].address
    {
      var a, b := n.priority[i], n.priority[j];
      assert a != b;
      assert a < b || b < a;
    }
  }

  /** After messages of a, b, c, d and again a, the drone reports to b, c and d. */
  lemma LeavesOutTheFirst(address: nat, a: Inbound, b: Inbound, c: Inbound, d: Inbound, again: Inbound)
    requires a.msg.src != b.msg.src && a.msg.src != c.msg.src && a.msg.src != d.msg.src
    requires b.msg.src != c.msg.src && b.msg.src != d.msg.src && c.msg.src != d.msg.src && again.msg.src == a.msg.src
    ensures var n0 := InitialNode(address);
            var n4 := Process(Process(Process(Process(n0, a).node, b).node, c).node, d).node;
            var units := Generate(Process(n4, again).node).units;
            units[0].dest == b.msg.src && units[1].dest == c.msg.src && units[2].dest == d.msg.src
  {
    hide Process, UpdatePriority, Generate;
    var n0 := InitialNode(address);
    var n1 := Process(n0, a).node;
    var n2 := Process(n1, b).node;
    var n3 := Process(n2, c).node;
    var n4 := Process(n3, d).node;
    var n5 := Process(n4, again).node;
    assert Addresses([]) == [];
    AddressesAfter(n0, a);
    AddressesAfter(n1, b);
    AddressesAfter(n2, c);
    AddressesAfter(n3, d);
    AddressesAfter(n4, again);
    FourTables(n3.priority, n4.priority, n5.priority);
    assert Addresses(n5.neighbours) == [a.msg.src, b.msg.src, c.msg.src, d.msg.src];
    UnitsFollowQueue(n5, 0);
    UnitsFollowQueue(n5, 1);
    UnitsFollowQueue(n5, 2);
    AddressAt(n5.neighbours, 1);
    AddressAt(n5.neighbours, 2);
    AddressAt(n5.neighbours, 3);
  }

  lemma AddressAt(neighbours: seq<Neighbour>, i: nat)
    requires i < |neighbours|
    ensures neighbours[i].address == Addresses(neighbours)[i]
  {
  }

  lemma FourTables(p3: seq<nat>, p4: seq<nat>, p5: seq<nat>)
    requires |p3| >= 4 && p4 == UpdatePriority(p3, 3, 4) && p5 == UpdatePriority(p4, 0, 4)
    ensures p5[0] == 1 && p5[1] == 2 && p5[2] == 3
  {
  }
}
