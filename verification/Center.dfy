/** The control center: a table of connected nodes to which every received message is broadcast. */
module CenterSpec {
  import opened Config

  type Bytes = seq<bv8>

  datatype NodeInfo = NodeInfo(socket: nat, nodeId: string)

  datatype Packet = BaseTime(time: nat) | Data(msg: Bytes) | Reject

  ghost predicate DistinctSockets(nodes: seq<NodeInfo>) {
    forall i, j :: 0 <= i < j < |nodes| ==> nodes[i].socket != nodes[j].socket
  }

  predicate Has(nodes: seq<NodeInfo>, socket: nat) {
    exists node <- nodes :: node.socket == socket
  }

  function FindSocket(nodes: seq<NodeInfo>, socket: nat, i: nat): (r: int)
    requires i <= |nodes|
    ensures r == NULL_INDEX ==> forall j :: i <= j < |nodes| ==> nodes[j].socket != socket
    ensures r != NULL_INDEX ==> i <= r < |nodes| && nodes[r].socket == socket
    decreases |nodes| - i
  {
    if i == |nodes| then NULL_INDEX else if nodes[i].socket == socket then i else FindSocket(nodes, socket, i + 1)
  }

  /** The table after a node asked to join: it is added while there is room. */
  function Add(nodes: seq<NodeInfo>, socket: nat, nodeId: string): seq<NodeInfo> {
    if |nodes| < MAX_NODES then nodes + [NodeInfo(socket, nodeId)] else nodes
  }

  /** The base time after that: the first node sets it. */
  function BaseAfter(nodes: seq<NodeInfo>, worldBaseTime: nat, now: nat): nat {
    if nodes == [] then now else worldBaseTime
  }

  /** And what the node is told. */
  function Reply(nodes: seq<NodeInfo>, worldBaseTime: nat, now: nat): Packet {
    if |nodes| < MAX_NODES then BaseTime(BaseAfter(nodes, worldBaseTime, now)) else Reject
  }

  /** Swap-removal: the last node takes the place of the first one with this socket. */
  function Remove(nodes: seq<NodeInfo>, socket: nat): seq<NodeInfo> {
    var i := FindSocket(nodes, socket, 0);
    if i == NULL_INDEX then nodes else nodes[i := nodes[|nodes| - 1]][..|nodes| - 1]
  }

  /** Swap-removal keeps every other node, exactly as often as before, and drops the one with the socket; the last node
      takes its place, and all others stay in theirs. */
  lemma RemoveKeepsOthers(nodes: seq<NodeInfo>, socket: nat)
    requires DistinctSockets(nodes)
    ensures DistinctSockets(Remove(nodes, socket))
    ensures forall other :: Has(Remove(nodes, socket), other) <==> other != socket && Has(nodes, other)
    ensures Has(nodes, socket) ==>
              exists node: NodeInfo :: node.socket == socket
                && multiset(nodes) == multiset(Remove(nodes, socket)) + multiset{node}
    ensures forall i :: 0 <= i < |nodes| && nodes[i].socket == socket ==>
              var r := Remove(nodes, socket);
              && |r| == |nodes| - 1
              && (forall j :: 0 <= j < |r| && j != i ==> r[j] == nodes[j])
              && (i < |r| ==> r[i] == nodes[|nodes| - 1])
  {
    var i := FindSocket(nodes, socket, 0);
    if i != NULL_INDEX {
      RemovalIsMultiset(nodes, socket, i);
      var r := Remove(nodes, socket);
      var n := |nodes| - 1;
      forall other | other != socket && Has(nodes, other)
        ensures Has(r, other)
      {
        var j :| 0 <= j < |nodes| && nodes[j].socket == other;
        assert r[if j == n then i else j].socket == other;
      }
    }
  }

  lemma RemovalIsMultiset(nodes: seq<NodeInfo>, socket: nat, i: nat)
    requires i == FindSocket(nodes, socket, 0)
    ensures multiset(nodes) == multiset(Remove(nodes, socket)) + multiset{nodes[i]}
  {
    var n := |nodes| - 1;
    var swapped := nodes[i := nodes[n]];
    assert swapped == Remove(nodes, socket) + [nodes[n]];
    assert multiset(swapped) == multiset(nodes) - multiset{nodes[i]} + multiset{nodes[n]};
  }
}

module Centers {
  import opened Config
  import opened CenterSpec

  class ControlCenter {
    const nodes: array<NodeInfo>
    var nodeCount: nat
    var worldBaseTime: nat

    ghost predicate Valid()
      reads this
    {
      nodeCount <= nodes.Length == MAX_NODES
    }

    /** The nodes registered now. */
    ghost function Registered(): seq<NodeInfo>
      requires Valid()
      reads this, nodes
    {
      nodes[..nodeCount]
    }

    constructor ()
      ensures Valid() && Registered() == [] && worldBaseTime == 0 && fresh(nodes)
    {
      nodes := new NodeInfo[MAX_NODES](_ => NodeInfo(0, ""));
      nodeCount, worldBaseTime := 0, 0;
    }

    /** The first critical section of handle_node_connection; the reply goes to the new socket. */
    method Register(socket: nat, nodeId: string, now: nat) returns (reply: Packet)
      requires Valid()
      modifies this, nodes
      ensures Valid()
      ensures Registered() == Add(old(Registered()), socket, nodeId)
      ensures worldBaseTime == BaseAfter(old(Registered()), old(worldBaseTime), now)
      ensures reply == Reply(old(Registered()), old(worldBaseTime), now)
      ensures old(nodeCount) == 0 ==>
                Registered() == [NodeInfo(socket, nodeId)] && worldBaseTime == now && reply == BaseTime(now)
      ensures 0 < old(nodeCount) < 10 ==>
                && Registered() == old(Registered()) + [NodeInfo(socket, nodeId)]
                && worldBaseTime == old(worldBaseTime) && reply == BaseTime(old(worldBaseTime))
      ensures old(nodeCount) == 10 ==>
                Registered() == old(Registered()) && worldBaseTime == old(worldBaseTime) && reply == Reject
    {
      if nodeCount < MAX_NODES {
        if nodeCount == 0 {
          worldBaseTime := now;
        }
        nodes[nodeCount] := NodeInfo(socket, nodeId);
        nodeCount := nodeCount + 1;
        reply := BaseTime(worldBaseTime);
      } else {
        reply := Reject;
      }
    }

    /** broadcast_to_nodes: the sockets the message is sent to, in this order. */
    method BroadcastToNodes() returns (sockets: seq<nat>)
      requires Valid()
      ensures |sockets| == |Registered()|
      ensures forall i :: 0 <= i < |sockets| ==> sockets[i] == Registered()[i].socket
    {
      sockets := [];
      for i := 0 to nodeCount
        invariant |sockets| == i
        invariant forall j :: 0 <= j < i ==> sockets[j] == Registered()[j].socket
      {
        sockets := sockets + [nodes[i].socket];
      }
    }

    /** The last critical section of handle_node_connection. */
    method RemoveNode(socket: nat)
      requires Valid()
      modifies this`nodeCount, nodes
      ensures Valid() && Registered() == Remove(old(Registered()), socket)
    {
      for i := 0 to nodeCount
        invariant Registered() == old(Registered()) && nodeCount == old(nodeCount)
        invariant FindSocket(Registered(), socket, 0) == FindSocket(Registered(), socket, i)
      {
        if nodes[i].socket == socket {
          nodes[i] := nodes[nodeCount - 1];
          nodeCount := nodeCount - 1;
          return;
        }
      }
    }
  }
}

/** The center with any number of connections, each served by a thread of its own. The sections under nodes_mutex are
    single steps. */
module CenterRuns {
  import opened Config
  import opened CenterSpec

  /** A connection: accepted by the main thread, active between its registration and its removal, leaving until its
      socket is closed. */
  datatype Phase = Waiting | Active | Leaving | Rejected | Gone

  /** `held` is the message its thread has received and not yet broadcast. History: everything received from the
      socket (`read`) and sent to it (`out`), the time when the table it joined was last empty, and where in the log it
      joined and left. */
  datatype Connection = Connection(
    socket: nat, phase: Phase, held: Option<Bytes>,
    read: seq<Bytes>, out: seq<Packet>, base: Option<nat>, joined: nat, left: nat)

  /** One broadcast: the connection it came from and the message. */
  datatype Entry = Entry(from: nat, msg: Bytes)

  /** `opening` is history: the time of the registration that last found the table empty. */
  datatype State = State(nodes: seq<NodeInfo>, worldBaseTime: nat, connections: seq<Connection>, log: seq<Entry>,
                         opening: nat)

  const Initial := State([], 0, [], [], 0)

  predicate InUse(c: Connection) { c.phase.Waiting? || c.phase.Active? || c.phase.Leaving? }

  function Deliver(c: Connection, packet: Packet): Connection { c.(out := c.out + [packet]) }

  /** send on a socket reaches the connection that uses it. */
  function Send(connections: seq<Connection>, socket: nat, packet: Packet): seq<Connection> {
    seq(|connections|, k requires 0 <= k < |connections| =>
      if InUse(connections[k]) && connections[k].socket == socket then Deliver(connections[k], packet)
      else connections[k])
  }

  /** The loop of broadcast_to_nodes. */
  function SendAll(connections: seq<Connection>, nodes: seq<NodeInfo>, packet: Packet): seq<Connection>
    decreases |nodes|
  {
    if nodes == [] then connections
    else SendAll(Send(connections, nodes[0].socket, packet), nodes[1..], packet)
  }

  /** A broadcast reaches every connection in use whose socket is registered exactly once, and no other. */
  lemma {:induction false} SendAllReaches(connections: seq<Connection>, nodes: seq<NodeInfo>, packet: Packet)
    requires DistinctSockets(nodes)
    ensures var r := SendAll(connections, nodes, packet);
            && |r| == |connections|
            && forall k :: 0 <= k < |r| ==>
                 r[k] == if InUse(connections[k]) && Has(nodes, connections[k].socket)
                         then Deliver(connections[k], packet)
                         else connections[k]
    decreases |nodes|
  {
    if nodes != [] {
      var first := Send(connections, nodes[0].socket, packet);
      SendAllReaches(first, nodes[1..], packet);
      forall k | 0 <= k < |connections|
        ensures Has(nodes, connections[k].socket) <==>
                connections[k].socket == nodes[0].socket || Has(nodes[1..], connections[k].socket)
        ensures !(connections[k].socket == nodes[0].socket && Has(nodes[1..], connections[k].socket))
      {
        assert nodes == [nodes[0]] + nodes[1..];
      }
    }
  }

  datatype Step =
    | Accept(socket: nat)                              // main: a new connection on an unused descriptor
    | Abort(c: nat)                                    // no node id arrives
    | Register(c: nat, nodeId: string, now: nat)
    | Receive(c: nat, msg: Bytes)
    | Broadcast(c: nat)
    | Leave(c: nat)                                    // the last critical section
    | Close(c: nat)

  predicate Enabled(s: State, step: Step) {
    match step
    case Accept(socket) => forall c <- s.connections :: InUse(c) ==> c.socket != socket
    case Abort(c) => c < |s.connections| && s.connections[c].phase.Waiting?
    case Register(c, _, _) => c < |s.connections| && s.connections[c].phase.Waiting?
    case Receive(c, _) => c < |s.connections| && s.connections[c].phase.Active? && s.connections[c].held.None?
    case Broadcast(c) => c < |s.connections| && s.connections[c].phase.Active? && s.connections[c].held.Some?
    case Leave(c) => c < |s.connections| && s.connections[c].phase.Active? && s.connections[c].held.None?
    case Close(c) => c < |s.connections| && s.connections[c].phase.Leaving?
  }

  function Registered(s: State, c: nat, nodeId: string, now: nat): State
    requires c < |s.connections|
  {
    var opening := if s.nodes == [] then now else s.opening;
    var x := Deliver(s.connections[c], Reply(s.nodes, s.worldBaseTime, now));
    var answered := if |s.nodes| < MAX_NODES then x.(phase := Active, base := Some(opening), joined := |s.log|)
                    else x.(phase := Rejected);
    s.(nodes := Add(s.nodes, x.socket, nodeId), worldBaseTime := BaseAfter(s.nodes, s.worldBaseTime, now),
       connections := s.connections[c := answered], opening := opening)
  }

  function Broadcasted(s: State, c: nat): State
    requires c < |s.connections| && s.connections[c].held.Some?
  {
    var msg := s.connections[c].held.value;
    var released := s.connections[c := s.connections[c].(held := None)];
    s.(connections := SendAll(released, s.nodes, Data(msg)), log := s.log + [Entry(c, msg)])
  }

  function Next(s: State, step: Step): State
    requires Enabled(s, step)
  {
    match step
    case Accept(socket) => s.(connections := s.connections + [Connection(socket, Waiting, None, [], [], None, 0, 0)])
    case Abort(c) => s.(connections := s.connections[c := s.connections[c].(phase := Gone)])
    case Register(c, nodeId, now) => Registered(s, c, nodeId, now)
    case Receive(c, msg) =>
      var x := s.connections[c];
      s.(connections := s.connections[c := x.(held := Some(msg), read := x.read + [msg])])
    case Broadcast(c) => Broadcasted(s, c)
    case Leave(c) =>
      var x := s.connections[c];
      s.(nodes := Remove(s.nodes, x.socket), connections := s.connections[c := x.(phase := Leaving, left := |s.log|)])
    case Close(c) => s.(connections := s.connections[c := s.connections[c].(phase := Gone)])
  }

  // ---------------------------------------------------------------- the invariant

  /** The messages of a stretch of the log, as packets. */
  function Packets(entries: seq<Entry>): seq<Packet> {
    seq(|entries|, i requires 0 <= i < |entries| => Data(entries[i].msg))
  }

  /** The messages of one sender, in the order of the log. */
  function FromSender(log: seq<Entry>, c: nat): seq<Bytes>
    decreases |log|
  {
    if log == [] then []
    else
      var last := log[|log| - 1];
      FromSender(log[..|log| - 1], c) + (if last.from == c then [last.msg] else [])
  }

  function Held(c: Connection): seq<Bytes> { if c.held.Some? then [c.held.value] else [] }

  /** Where the connection's stretch of the log ends. */
  function End(s: State, c: Connection): nat { if c.phase.Active? then |s.log| else c.left }

  ghost predicate Out(s: State, c: Connection) {
    match c.base
    case Some(base) =>
      && (c.phase.Active? || c.phase.Leaving? || c.phase.Gone?) && (c.phase.Active? ==> base == s.worldBaseTime)
      && c.joined <= End(s, c) <= |s.log| && c.out == [BaseTime(base)] + Packets(s.log[c.joined..End(s, c)])
    case None =>
      (c.phase.Waiting? || c.phase.Rejected? || c.phase.Gone?) && c.out == if c.phase.Rejected? then [Reject] else []
  }

  ghost predicate DistinctInUse(connections: seq<Connection>) {
    forall j, k :: 0 <= j < k < |connections| && InUse(connections[j]) && InUse(connections[k]) ==>
      connections[j].socket != connections[k].socket
  }

  predicate ActiveOn(connections: seq<Connection>, socket: nat) {
    exists c <- connections :: c.phase.Active? && c.socket == socket
  }

  ghost predicate SocketsInv(s: State) {
    && |s.nodes| <= MAX_NODES && DistinctSockets(s.nodes)
    && DistinctInUse(s.connections)
    && (forall socket :: Has(s.nodes, socket) <==> ActiveOn(s.connections, socket))
  }

  ghost predicate OrderInv(s: State) {
    && s.worldBaseTime == s.opening
    && (forall k :: 0 <= k < |s.connections| ==> Out(s, s.connections[k]))
    && (forall k :: 0 <= k < |s.connections| ==> FromSender(s.log, k) + Held(s.connections[k]) == s.connections[k].read)
    && (forall e <- s.log :: e.from < |s.connections|)
  }

  ghost predicate Inv(s: State) { SocketsInv(s) && OrderInv(s) }

  // ---------------------------------------------------------------- what one step does to the log

  lemma FromSenderOfNext(log: seq<Entry>, e: Entry, c: nat)
    ensures FromSender(log + [e], c) == FromSender(log, c) + (if e.from == c then [e.msg] else [])
  {
    assert (log + [e])[..|log|] == log;
  }

  lemma {:induction false} FromNobody(log: seq<Entry>, c: nat)
    requires forall e <- log :: e.from < c
    ensures FromSender(log, c) == []
    decreases |log|
  {
    if log != [] {
      FromNobody(log[..|log| - 1], c);
    }
  }

  lemma PacketsOfNext(log: seq<Entry>, e: Entry, joined: nat)
    requires joined <= |log|
    ensures Packets((log + [e])[joined..]) == Packets(log[joined..]) + [Data(e.msg)]
  {
    assert (log + [e])[joined..] == log[joined..] + [e];
  }

  /** Replacing connection c keeps the order invariant if the new one meets it. */
  lemma OneConnection(s: State, c: nat, x: Connection, s': State)
    requires OrderInv(s) && c < |s.connections| && s'.connections == s.connections[c := x] && s'.log == s.log
    requires s'.worldBaseTime == s'.opening
    requires Out(s', x) && Held(x) == Held(s.connections[c]) && x.read == s.connections[c].read
    requires s'.worldBaseTime == s.worldBaseTime
             || forall k :: 0 <= k < |s.connections| ==> !s.connections[k].phase.Active?
    ensures OrderInv(s')
  {
    hide Packets, FromSender;
  }

  // ---------------------------------------------------------------- every step

  /** A change of connection c concerns its own socket only. */
  lemma ActiveAfter(connections: seq<Connection>, c: nat, x: Connection)
    requires DistinctInUse(connections) && c < |connections| && InUse(connections[c])
    requires x.socket == connections[c].socket
    ensures DistinctInUse(connections[c := x])
    ensures forall socket :: ActiveOn(connections[c := x], socket)
              <==> if socket == x.socket then x.phase.Active? else ActiveOn(connections, socket)
  {
    var after := connections[c := x];
    forall socket
      ensures ActiveOn(after, socket) <==> if socket == x.socket then x.phase.Active? else ActiveOn(connections, socket)
    {
      if socket == x.socket {
        if x.phase.Active? { assert after[c] in after; }
      } else if ActiveOn(connections, socket) {
        var k :| 0 <= k < |connections| && connections[k].phase.Active? && connections[k].socket == socket;
        assert after[k] in after;
      }
    }
  }

  lemma ActiveOf(connections: seq<Connection>, c: nat)
    requires DistinctInUse(connections) && c < |connections| && InUse(connections[c])
    ensures ActiveOn(connections, connections[c].socket) <==> connections[c].phase.Active?
  {
    ActiveAfter(connections, c, connections[c]);
    assert connections[c := connections[c]] == connections;
  }

  lemma RegisterKeeps(s: State, c: nat, nodeId: string, now: nat)
    requires Inv(s) && Enabled(s, Register(c, nodeId, now))
    ensures Inv(Registered(s, c, nodeId, now))
  {
    hide FromSender, DistinctInUse, ActiveOn;
    var x, s' := s.connections[c], Registered(s, c, nodeId, now);
    ActiveOf(s.connections, c);
    ActiveAfter(s.connections, c, s'.connections[c]);
    HasNext(s.nodes, x.socket, nodeId);
    assert Packets([]) == [];
    assert s.log[|s.log|..] == [];
    forall k | 0 <= k < |s.connections| && s.nodes == []
      ensures !s.connections[k].phase.Active?
    {
      assert !Has(s.nodes, s.connections[k].socket);
      assert InUse(s.connections[k]) ==> !s.connections[k].phase.Active? by {
        if InUse(s.connections[k]) { ActiveOf(s.connections, k); }
      }
    }
    OneConnection(s, c, s'.connections[c], s');
  }

  lemma HasNext(nodes: seq<NodeInfo>, socket: nat, nodeId: string)
    ensures forall other :: Has(nodes + [NodeInfo(socket, nodeId)], other) <==> Has(nodes, other) || other == socket
    ensures DistinctSockets(nodes) && !Has(nodes, socket) ==> DistinctSockets(nodes + [NodeInfo(socket, nodeId)])
  {
    var next := nodes + [NodeInfo(socket, nodeId)];
    assert next[|nodes|] in next;
    assert forall node <- nodes :: node in next;
    forall i | 0 <= i < |nodes| && !Has(nodes, socket)
      ensures nodes[i].socket != socket
    {
      assert nodes[i] in nodes;
    }
  }

  lemma LeaveKeeps(s: State, c: nat)
    requires Inv(s) && Enabled(s, Leave(c))
    ensures Inv(Next(s, Leave(c)))
  {
    hide FromSender, DistinctInUse, ActiveOn, Has, Remove, Packets;
    var s' := Next(s, Leave(c));
    RemoveKeepsOthers(s.nodes, s.connections[c].socket);
    ActiveAfter(s.connections, c, s'.connections[c]);
    RemoveShrinks(s.nodes, s.connections[c].socket);
    OneConnection(s, c, s'.connections[c], s');
  }

  lemma RemoveShrinks(nodes: seq<NodeInfo>, socket: nat)
    ensures |Remove(nodes, socket)| <= |nodes|
  {
  }

  lemma AcceptKeeps(s: State, socket: nat)
    requires Inv(s) && Enabled(s, Accept(socket))
    ensures Inv(Next(s, Accept(socket)))
  {
    hide Has, Packets;
    var s' := Next(s, Accept(socket));
    FromNobody(s.log, |s.connections|);
    forall other
      ensures ActiveOn(s'.connections, other) <==> ActiveOn(s.connections, other)
    {
      assert forall x <- s.connections :: x in s'.connections;
    }
  }

  /** Connection c changes neither its phase to or from active nor what it sent and got. */
  lemma QuietKeeps(s: State, c: nat, x: Connection)
    requires Inv(s) && c < |s.connections| && InUse(s.connections[c]) && Out(s, x)
    requires x.socket == s.connections[c].socket
    requires x.phase.Active? == s.connections[c].phase.Active?
    requires FromSender(s.log, c) + Held(x) == x.read
    ensures Inv(s.(connections := s.connections[c := x]))
  {
    hide FromSender, DistinctInUse, ActiveOn, Has, Packets, Out;
    var s' := s.(connections := s.connections[c := x]);
    ActiveOf(s.connections, c);
    ActiveAfter(s.connections, c, x);
    forall k | 0 <= k < |s'.connections|
      ensures Out(s', s'.connections[k])
    {
      OutSame(s, s', s'.connections[k]);
    }
  }

  lemma OutSame(s: State, s': State, x: Connection)
    requires Out(s, x) && s'.log == s.log && s'.worldBaseTime == s.worldBaseTime
    ensures Out(s', x)
  {
  }

  lemma BroadcastKeeps(s: State, c: nat)
    requires Inv(s) && Enabled(s, Broadcast(c))
    ensures Inv(Broadcasted(s, c))
  {
    hide FromSender, DistinctInUse, ActiveOn, Has, Packets, Out, SendAll;
    var x, s' := s.connections[c], Broadcasted(s, c);
    var msg := x.held.value;
    var released := s.connections[c := x.(held := None)];
    ActiveOf(s.connections, c);
    ActiveAfter(s.connections, c, x.(held := None));
    SendAllReaches(released, s.nodes, Data(msg));
    SamePhases(released, s'.connections);
    forall k | 0 <= k < |s.connections|
      ensures Out(s', s'.connections[k])
      ensures FromSender(s'.log, k) + Held(s'.connections[k]) == s'.connections[k].read
    {
      if InUse(released[k]) { ActiveOf(released, k); }
      BroadcastOut(s, s.connections[k], released[k], Entry(c, msg), s');
      FromSenderOfNext(s.log, Entry(c, msg), k);
    }
  }

  lemma SamePhases(connections: seq<Connection>, after: seq<Connection>)
    requires |after| == |connections|
    requires forall k :: 0 <= k < |after| ==>
               after[k].phase == connections[k].phase && after[k].socket == connections[k].socket
    requires DistinctInUse(connections)
    ensures DistinctInUse(after) && forall socket :: ActiveOn(after, socket) <==> ActiveOn(connections, socket)
  {
    forall socket
      ensures ActiveOn(after, socket) <==> ActiveOn(connections, socket)
    {
      assert forall k :: 0 <= k < |after| ==> after[k] in after && connections[k] in connections;
    }
  }

  lemma BroadcastOut(s: State, c: Connection, released: Connection, e: Entry, s': State)
    requires Out(s, c) && released == c.(held := released.held)
    requires s' == s.(log := s.log + [e], connections := s'.connections)
    ensures Out(s', if c.phase.Active? then Deliver(released, Data(e.msg)) else released)
  {
    if c.phase.Active? {
      PacketsOfNext(s.log, e, c.joined);
    } else if c.base.Some? {
      assert (s.log + [e])[c.joined..c.left] == s.log[c.joined..c.left];
    }
  }

  lemma StepKeepsInv(s: State, step: Step)
    requires Inv(s) && Enabled(s, step)
    ensures Inv(Next(s, step))
  {
    hide FromSender, DistinctInUse, ActiveOn, Has, Packets, SocketsInv;
    match step {
      case Accept(socket) => AcceptKeeps(s, socket);
      case Abort(c) => QuietKeeps(s, c, Next(s, step).connections[c]);
      case Register(c, nodeId, now) => RegisterKeeps(s, c, nodeId, now);
      case Receive(c, msg) => QuietKeeps(s, c, Next(s, step).connections[c]);
      case Broadcast(c) => BroadcastKeeps(s, c);
      case Leave(c) => LeaveKeeps(s, c);
      case Close(c) => QuietKeeps(s, c, Next(s, step).connections[c]);
    }
  }

  ghost predicate IsRun(s: State, steps: seq<Step>, s': State)
    decreases |steps|
  {
    if steps == [] then s == s'
    else Enabled(s, steps[0]) && IsRun(Next(s, steps[0]), steps[1..], s')
  }

  ghost predicate Reachable(s: State) { exists steps :: IsRun(Initial, steps, s) }

  lemma {:induction false} RunKeepsInv(s: State, steps: seq<Step>, s': State)
    requires Inv(s) && IsRun(s, steps, s')
    ensures Inv(s')
    decreases |steps|
  {
    hide Inv, Next, Enabled;
    if steps != [] {
      StepKeepsInv(s, steps[0]);
      RunKeepsInv(Next(s, steps[0]), steps[1..], s');
    }
  }

  lemma ReachableInv(s: State)
    requires Reachable(s)
    ensures Inv(s)
  {
    hide IsRun;
    var steps :| IsRun(Initial, steps, s);
    RunKeepsInv(Initial, steps, s);
  }

  // ---------------------------------------------------------------- the results

  /** Total-order broadcast. Whatever connects, sends and disconnects: the socket of every accepted node gets first the
      base time and then one contiguous stretch of the single global log of broadcasts, up to now or to its removal. */
  lemma TotalOrderBroadcast(s: State, c: nat)
    requires Reachable(s) && c < |s.connections| && s.connections[c].base.Some?
    ensures var x := s.connections[c];
            && x.joined <= End(s, x) <= |s.log|
            && |x.out| == 1 + End(s, x) - x.joined && x.out[0] == BaseTime(x.base.value)
            && forall i :: x.joined <= i < End(s, x) ==> x.out[1 + i - x.joined] == Data(s.log[i].msg)
  {
    hide SocketsInv, FromSender;
    ReachableInv(s);
    assert Out(s, s.connections[c]);
  }

  /** The base time. At any time it is the time of the registration that last found the table empty. A registration
      that finds it empty sets it to its own time, and no other one changes it; each accepted node is told it first. */
  lemma BaseTimeIsOpening(s: State, c: nat, nodeId: string, now: nat)
    requires Reachable(s) && Enabled(s, Register(c, nodeId, now)) && |s.nodes| < MAX_NODES
    ensures var s' := Next(s, Register(c, nodeId, now));
            && s.worldBaseTime == s.opening && s'.worldBaseTime == s'.opening
            && s'.opening == (if s.nodes == [] then now else s.opening)
            && c < |s'.connections| && s'.connections[c].out == [BaseTime(s'.opening)]
            && s'.connections[c].base == Some(s'.opening)
  {
    hide SocketsInv, FromSender;
    ReachableInv(s);
    assert Out(s, s.connections[c]);
  }

  /** No step of the run starts with an empty table. */
  ghost predicate StaysOccupied(s: State, steps: seq<Step>)
    decreases |steps|
  {
    steps == [] || (s.nodes != [] && Enabled(s, steps[0]) && StaysOccupied(Next(s, steps[0]), steps[1..]))
  }

  /** The connections accepted since then were told the present base time. */
  ghost predicate SinceToldSame(was: seq<Connection>, s: State) {
    forall k :: 0 <= k < |s.connections| && (k < |was| ==> was[k].base.None?) && s.connections[k].base.Some? ==>
      s.connections[k].base.value == s.opening
  }

  lemma StepTellsSame(was: seq<Connection>, s: State, step: Step)
    requires Enabled(s, step) && DistinctSockets(s.nodes) && s.nodes != [] && SinceToldSame(was, s)
    ensures SinceToldSame(was, Next(s, step)) && Next(s, step).opening == s.opening
  {
    hide SendAll, DistinctSockets, Remove;
    if step.Broadcast? {
      var c := step.c;
      var released := s.connections[c := s.connections[c].(held := None)];
      SendAllReaches(released, s.nodes, Data(s.connections[c].held.value));
    }
  }

  lemma {:induction false} RunTellsSame(was: seq<Connection>, s: State, steps: seq<Step>, s': State)
    requires Inv(s) && IsRun(s, steps, s') && StaysOccupied(s, steps) && SinceToldSame(was, s)
    ensures Inv(s') && SinceToldSame(was, s') && s'.opening == s.opening
    decreases |steps|
  {
    hide Inv, Next, SinceToldSame;
    if steps != [] {
      assert DistinctSockets(s.nodes) by { SocketsOf(s); }
      StepTellsSame(was, s, steps[0]);
      StepKeepsInv(s, steps[0]);
      RunTellsSame(was, Next(s, steps[0]), steps[1..], s');
    }
  }

  lemma SocketsOf(s: State)
    requires Inv(s)
    ensures DistinctSockets(s.nodes)
  {
  }

  /** While the table does not get empty, the base time stays, and every node that joins is told it. */
  lemma SameBaseTime(s: State, steps: seq<Step>, s': State, c: nat)
    requires Reachable(s) && IsRun(s, steps, s') && StaysOccupied(s, steps) && c < |s'.connections|
    requires (c < |s.connections| ==> s.connections[c].base.None?) && s'.connections[c].base.Some?
    ensures s'.worldBaseTime == s.worldBaseTime
    ensures s'.connections[c].out != [] && s'.connections[c].out[0] == BaseTime(s.worldBaseTime)
  {
    hide SocketsInv, FromSender, IsRun, StaysOccupied, Reachable;
    ReachableInv(s);
    RunTellsSame(s.connections, s, steps, s');
    assert Out(s', s'.connections[c]);
  }

  /** The log keeps every sender's order: its entries from one connection are everything received from that socket, in
      that order, except for the message its thread still holds. */
  lemma SenderOrder(s: State, c: nat)
    requires Reachable(s) && c < |s.connections|
    ensures FromSender(s.log, c) + Held(s.connections[c]) == s.connections[c].read
  {
    hide SocketsInv, Out;
    ReachableInv(s);
  }

  /** Two nodes registered at the same time share one base time, and the one that joined later has received exactly what
      the other one received since then. */
  lemma ActiveNodesAgree(s: State, c: nat, d: nat)
    requires Reachable(s) && c < |s.connections| && d < |s.connections|
    requires s.connections[c].phase.Active? && s.connections[d].phase.Active?
    requires s.connections[c].joined <= s.connections[d].joined
    ensures s.connections[c].out != [] && s.connections[d].out != []
    ensures s.connections[c].out[0] == s.connections[d].out[0]
    ensures var (x, y) := (s.connections[c], s.connections[d]);
            1 + y.joined - x.joined <= |x.out| && x.out[1 + y.joined - x.joined..] == y.out[1..]
  {
    hide SocketsInv, FromSender;
    ReachableInv(s);
    assert Out(s, s.connections[c]) && Out(s, s.connections[d]);
  }

  /** Registration. Exactly the active connections are in the table, each with one entry, and there are never more than
      MAX_NODES of them. */
  lemma RegisteredOnce(s: State)
    requires Reachable(s)
    ensures |s.nodes| <= MAX_NODES && DistinctSockets(s.nodes)
    ensures forall c <- s.connections :: InUse(c) ==> (c.phase.Active? <==> Has(s.nodes, c.socket))
    ensures forall node <- s.nodes :: exists c <- s.connections :: c.phase.Active? && c.socket == node.socket
  {
    hide OrderInv, DistinctInUse, ActiveOn;
    ReachableInv(s);
    forall c | c in s.connections && InUse(c)
      ensures c.phase.Active? <==> Has(s.nodes, c.socket)
    {
      var k :| 0 <= k < |s.connections| && s.connections[k] == c;
      ActiveOf(s.connections, k);
    }
    forall node | node in s.nodes
      ensures exists c <- s.connections :: c.phase.Active? && c.socket == node.socket
    {
      assert Has(s.nodes, node.socket);
      ActiveMeaning(s.connections, node.socket);
    }
  }

  lemma ActiveMeaning(connections: seq<Connection>, socket: nat)
    requires ActiveOn(connections, socket)
    ensures exists c <- connections :: c.phase.Active? && c.socket == socket
  {
  }
}
