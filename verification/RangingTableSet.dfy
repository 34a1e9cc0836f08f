/** The whole ranging state of a drone (`RangingTableSet_t` with the globals beside it) and its two operations,
    proved against NodeSpec. */
module RangingTableSets {
  import opened Config
  import opened RangingBufferSpec
  import opened NodeSpec
  import opened SendHistories
  import opened RangingTables

  const UNSET_PRIORITY: nat := 255

  /** The loop of initRangingTableSet over the tables. */
  method UnusedTables() returns (tables: seq<RangingTable>)
    ensures |tables| == TABLE_SET_NEIGHBOR_NUM
    ensures forall i :: 0 <= i < |tables| ==> fresh(tables[i].objects) && tables[i].Unused()
    ensures forall i, j :: 0 <= i < j < |tables| ==> tables[i].objects !! tables[j].objects
  {
    hide RangingTable.Unused, RangingTable.Valid, RangingTable.Contents;
    tables := [];
    for i := 0 to TABLE_SET_NEIGHBOR_NUM
      invariant |tables| == i
      invariant forall j :: 0 <= j < i ==> fresh(tables[j].objects) && tables[j].Unused()
      invariant forall j, k :: 0 <= j < k < i ==> tables[j].objects !! tables[k].objects
    {
      var table := new RangingTable();
      tables := tables + [table];
    }
  }

  class RangingTableSet {
    const localAddress: nat
    var counter: nat
    const neighborPriorityQueue: array<nat>
    const neighborTable: seq<RangingTable>
    const localSends: SendHistory
    var localSendSeqNumber: nat
    var initTofSum: int
    var lastD: Option<real>
    ghost var neighbours: seq<Neighbour>

    ghost function OwnObjects(): set<object> {
      {this, neighborPriorityQueue, localSends, localSends.localSendBuffer}
    }

    ghost function TableObjects(): set<object> {
      set i, o | 0 <= i < |neighborTable| && o in neighborTable[i].objects :: o
    }

    ghost predicate Separate() {
      && |neighborTable| == TABLE_SET_NEIGHBOR_NUM && neighborPriorityQueue.Length == TABLE_SET_NEIGHBOR_NUM
      && (forall i, j :: 0 <= i < j < |neighborTable| ==> neighborTable[i].objects !! neighborTable[j].objects)
      && (forall i :: 0 <= i < |neighborTable| ==> OwnObjects() !! neighborTable[i].objects)
    }

    /** The tables in use hold the neighbours; the others are as initialized. */
    ghost predicate TablesHold()
      reads this, TableObjects()
    {
      && |neighbours| == counter <= |neighborTable|
      && (forall i :: 0 <= i < counter ==> neighborTable[i].Valid() && neighborTable[i].Contents() == neighbours[i])
      && (forall i :: counter <= i < |neighborTable| ==> neighborTable[i].Unused())
    }

    ghost function Fields(): NodeState
      reads this, neighborPriorityQueue, localSends
    {
      NodeState(localAddress, localSendSeqNumber, localSends.history, neighbours, neighborPriorityQueue[..],
        initTofSum, lastD)
    }

    ghost predicate Consistent()
      reads this, localSends, localSends.localSendBuffer, TableObjects()
    {
      Separate() && TablesHold() && localSends.Valid()
    }

    ghost predicate Valid()
      reads OwnObjects(), TableObjects()
    {
      Consistent() && Ready(Fields())
    }

    /** The node this object stands for. */
    ghost function State(): Node
      reads OwnObjects(), TableObjects()
      requires Valid()
    {
      Fields()
    }

    /** initRangingTableSet */
    constructor (address: nat)
      ensures Valid() && State() == InitialNode(address)
      ensures fresh(OwnObjects()) && fresh(TableObjects())
    {
      hide RangingTable.Unused, RangingTable.Valid, RangingTable.Contents, SendHistory.Valid;
      localAddress := address;
      counter := 0;
      localSendSeqNumber := 1;
      initTofSum := 0;
      lastD := None;
      neighbours := [];
      localSends := new SendHistory();
      neighborPriorityQueue := new nat[TABLE_SET_NEIGHBOR_NUM](_ => UNSET_PRIORITY);
      var tables := UnusedTables();
      neighborTable := tables;
      new;
      assert neighborPriorityQueue[..] == FreshPriority;
    }

    /** findRangingTable */
    method FindRangingTable(address: nat) returns (r: int)
      requires Consistent()
      ensures Consistent() && r == FindNeighbour(neighbours, address)
    {
      Addresses();
      hide Consistent;
      for i := 0 to counter
        invariant FindNeighbour(neighbours, address) == FindFrom(neighbours, address, i)
      {
        if neighborTable[i].address == address {
          return i;
        }
      }
      return NULL_INDEX;
    }

    /** registerRangingTable */
    method RegisterRangingTable(address: nat) returns (index: int)
      requires Consistent()
      modifies this`counter, this`neighbours, TableObjects()
      ensures Consistent()
      ensures Fields() == old(Fields()).(neighbours := Register(old(neighbours), address))
      ensures index == FindNeighbour(neighbours, address)
    {
      hide Consistent, Register, FindNeighbour;
      index := FindRangingTable(address);
      if index != NULL_INDEX {
        return;
      }
      Addresses();
      if counter < TABLE_SET_NEIGHBOR_NUM {
        index := Append(address);
      } else {
        return NULL_INDEX;
      }
    }

    /** Takes the next unused table for a new neighbour. */
    method Append(address: nat) returns (index: int)
      requires Consistent() && counter < TABLE_SET_NEIGHBOR_NUM
      modifies this`counter, this`neighbours, TableObjects()
      ensures Consistent() && index == old(|neighbours|)
      ensures Fields() == old(Fields()).(neighbours := old(neighbours) + [Neighbour(address, [], [], EmptyBuffer)])
    {
      hide RangingTable.Valid, RangingTable.Unused, RangingTable.Contents, SendHistory.Valid;
      neighborTable[counter].Use(address);
      neighbours := neighbours + [Neighbour(address, [], [], EmptyBuffer)];
      index := counter;
      counter := counter + 1;
    }

    /** The addresses of the tables in use, and that no table shares memory with anything else. */
    lemma Addresses()
      requires Consistent()
      ensures |neighbours| == counter <= |neighborTable| == neighborPriorityQueue.Length == TABLE_SET_NEIGHBOR_NUM
      ensures forall i :: 0 <= i < counter ==> neighborTable[i].address == neighbours[i].address
      ensures OwnObjects() !! TableObjects()
    {
      hide RangingTable.Valid, SendHistory.Valid;
      assert forall i :: 0 <= i < counter ==> neighborTable[i].Contents() == neighbours[i];
    }

    /** updatePriority: the position of the neighbour moves to the tail and the prefix before it is reset; for an
        unknown address the whole queue is reset. */
    method UpdatePriority(address: nat)
      requires Consistent()
      modifies neighborPriorityQueue
      ensures Consistent()
      ensures var i := FindNeighbour(neighbours, address);
              if i != NULL_INDEX then
                neighborPriorityQueue[..] == NodeSpec.UpdatePriority(old(neighborPriorityQueue[..]), i, counter)
              else forall j :: 0 <= j < TABLE_SET_NEIGHBOR_NUM ==>
                     neighborPriorityQueue[j] == if j < counter then j else old(neighborPriorityQueue[j])
    {
      hide Consistent, FindNeighbour;
      var queue := neighborPriorityQueue;
      Addresses();
      FindNeighbourIsFindFrom(neighbours, address);
      for i := 0 to counter
        invariant FindNeighbour(neighbours, address) == FindFrom(neighbours, address, i)
        invariant forall j :: 0 <= j < i ==> queue[j] == j
        invariant forall j :: i <= j < TABLE_SET_NEIGHBOR_NUM ==> queue[j] == old(queue[j])
      {
        if neighborTable[i].address == address {
          MoveToTail(queue, i, counter);
          return;
        }
        queue[i] := i;
      }
    }

    /** The inner loop of updatePriority: entry i bubbles to the tail of the first n entries and is then overwritten. */
    static method MoveToTail(queue: array<nat>, i: nat, n: nat)
      requires i < n <= queue.Length
      modifies queue
      ensures forall j :: 0 <= j < queue.Length ==>
                queue[j] == if j < i then old(queue[j]) else if j < n - 1 then old(queue[j + 1])
                            else if j == n - 1 then i else old(queue[j])
    {
      for j := i to n - 1
        invariant forall k :: 0 <= k < queue.Length && !(i <= k <= j) ==> queue[k] == old(queue[k])
        invariant forall k :: i <= k < j ==> queue[k] == old(queue[k + 1])
      {
        queue[j], queue[j + 1] := queue[j + 1], queue[j];
      }
      queue[n - 1] := i;
    }

    // -------------------------------------------------------------- generating

    lemma InUse(i: nat)
      requires Valid() && i < counter
      ensures |neighbours| == counter <= |neighborTable| == |neighborPriorityQueue[..]|
      ensures neighborPriorityQueue[i] < counter
      ensures var table := neighborTable[neighborPriorityQueue[i]];
              && table.Valid() && table.receiveList.log != []
              && table.Contents() == neighbours[neighborPriorityQueue[i]]
    {
      hide RangingTable.Valid, RangingTable.Unused, SendHistory.Valid;
      var j := neighborPriorityQueue[..][i];
      assert neighborTable[j].Contents() == neighbours[j] && neighbours[j] in neighbours;
    }

    /** The body of the next message: the reports for the first neighbours of the priority queue. Of `memory`, what the
        message held before, the units that are not written remain. */
    method GenerateUnits(memory: BodyUnits) returns (units: BodyUnits, bodyUnitCounter: nat)
      requires Valid()
      ensures Valid() && units == GenerateInto(State(), memory).units
      ensures bodyUnitCounter == if counter < MESSAGE_BODY_UNIT_SIZE then counter else MESSAGE_BODY_UNIT_SIZE
    {
      hide Valid, UnitFor, Generate;
      units := memory;
      Sizes();
      bodyUnitCounter := 0;
      while bodyUnitCounter < MESSAGE_BODY_UNIT_SIZE && bodyUnitCounter < counter
        invariant Valid() && bodyUnitCounter <= MESSAGE_BODY_UNIT_SIZE && bodyUnitCounter <= counter
        invariant forall j :: 0 <= j < MESSAGE_BODY_UNIT_SIZE ==>
                    units[j] == if j < bodyUnitCounter then UnitFor(State(), j) else memory[j]
      {
        var report := GenerateUnit(bodyUnitCounter);
        units := units[bodyUnitCounter := report];
        bodyUnitCounter := bodyUnitCounter + 1;
      }
    }

    method GenerateUnit(i: nat) returns (unit: BodyUnit)
      requires Valid() && i < counter
      ensures Valid() && unit == UnitFor(State(), i)
    {
      hide RangingTable.Valid, RangingTable.Unused, SendHistory.Valid;
      InUse(i);
      var table := neighborTable[neighborPriorityQueue[i]];
      var rx := table.NewestRxStamps();
      unit := BodyUnit(table.address, rx);
    }

    lemma Sizes()
      requires Valid()
      ensures |neighbours| == counter && localSends.Valid() && localSendSeqNumber >= 1
    {
    }

    /** generateRangingMessage, into the memory of a message; `bodyUnitCounter` is the number of units that msgLength
        counts. */
    method GenerateRangingMessage(memory: BodyUnits) returns (message: Message, bodyUnitCounter: nat)
      requires Valid()
      modifies this`localSendSeqNumber
      ensures Valid() && message == GenerateInto(old(State()), memory) && State() == AfterGenerate(old(State()))
      ensures bodyUnitCounter == if counter < MESSAGE_BODY_UNIT_SIZE then counter else MESSAGE_BODY_UNIT_SIZE
    {
      hide RangingTable.Valid, RangingTable.Unused, RangingTable.Contents, SendHistory.Valid, UnitFor;
      var units;
      units, bodyUnitCounter := GenerateUnits(memory);
      var seqNo := localSendSeqNumber;
      localSendSeqNumber := localSendSeqNumber + 1;
      var tx := localSends.NewestTxStamps();
      message := Message(localAddress, seqNo, tx, units);
    }

    /** addLocalSendBuffer, as send_to_center calls it just before the message leaves. */
    method AddLocalSendBuffer(time: nat)
      requires Valid()
      modifies localSends, localSends.localSendBuffer
      ensures Valid() && State() == AddLocalSend(old(State()), time)
    {
      hide RangingTable.Valid, RangingTable.Unused, RangingTable.Contents, SendHistory.Valid;
      localSends.AddLocalSendBuffer(localSendSeqNumber - 1, time);
    }

    // -------------------------------------------------------------- processing

    /** The work on the table of the sender; n is the drone's state when the message came. */
    method ProcessTable(ghost n: Node, i: nat, m: Inbound) returns (distance: Option<Distance>)
      requires Consistent() && i < counter
      requires n.address == localAddress && n.history == localSends.history && n.initTofSum == initTofSum
      modifies this`initTofSum, this`neighbours, TableObjects()
      ensures Consistent()
      ensures i < |old(neighbours)| && var (p, d) := ProcessFor(old(neighbours[i]), n, m);
              && distance == d
              && Fields() == old(Fields()).(neighbours := old(neighbours)[i := p.nb], initTofSum := p.initTofSum)
    {
      hide RangingTable.Valid, RangingTable.Unused, RangingTable.Contents, SendHistory.Valid, ProcessFor;
      var table := neighborTable[i];
      initTofSum, distance := table.ProcessMessage(n, localAddress, localSends, m, initTofSum);
      neighbours := neighbours[i := table.Contents()];
    }

    /** The end of processRangingMessage: the compensated distance, which leaves the plain one as the last. */
    method Report(distance: Distance) returns (report: Distance)
      requires Consistent()
      modifies this`lastD
      ensures Consistent()
      ensures report == Compensate(old(lastD), distance)
      ensures Fields() == old(Fields()).(lastD := Some(distance.modified))
    {
      hide RangingTable.Valid, RangingTable.Unused, RangingTable.Contents, SendHistory.Valid;
      match lastD {
        case None =>
          report := distance;
        case Some(last) =>
          var change := (distance.modified - last) * COMPENSATE_RATE;
          report := distance.(modified := distance.modified + change);
      }
      lastD := Some(distance.modified);
    }

    /** processRangingMessage; what it prints as the current distance is the result. */
    method ProcessRangingMessage(m: Inbound) returns (report: Option<Distance>)
      requires Valid()
      modifies this, neighborPriorityQueue, TableObjects()
      ensures Valid()
      ensures Processed(State(), report) == Process(old(State()), m)
    {
      hide Consistent, ProcessFor, Compensate, Register, FindNeighbour, NodeSpec.UpdatePriority, TableObjects,
           OwnObjects;
      ghost var n := State();
      Addresses();
      var index := FindRangingTable(m.msg.src);
      if index == NULL_INDEX {
        index := RegisterRangingTable(m.msg.src);
        if index == NULL_INDEX {
          return None;
        }
      }
      UpdatePriority(m.msg.src);
      Addresses();
      ProcessKeepsReady(neighbours, n, m, index);
      var distance := ProcessTable(n, index, m);
      if distance.None? {
        return None;
      }
      var compensated := Report(distance.value);
      report := Some(compensated);
    }
  }
}
