/** The ranging table of one neighbour (`RangingTable_t`): its two lists and its calculation buffer, updated in place
    by the loops over a message. */
module RangingTables {
  import opened Config
  import opened RangingListSpec
  import opened RangingBufferSpec
  import opened NodeSpec
  import opened RangingLists
  import opened RangingBuffers
  import opened SendHistories

  class RangingTable {
    var address: nat
    const sendList: RangingList
    const receiveList: RangingList
    const validBuffer: RangingBuffer

    ghost const objects: set<object>

    ghost function ListObjects(): set<object> {
      {sendList, receiveList, sendList.rangingList, receiveList.rangingList}
    }

    ghost function BufferObjects(): set<object> {
      {validBuffer, validBuffer.sendBuffer, validBuffer.receiveBuffer}
    }

    ghost predicate Valid()
      reads objects
    {
      && objects == {this} + ListObjects() + BufferObjects()
      && sendList != receiveList && sendList.rangingList != receiveList.rangingList
      && sendList.Valid() && receiveList.Valid() && validBuffer.Valid()
    }

    /** The neighbour this table stands for. */
    ghost function Contents(): Neighbour
      requires Valid()
      reads objects
    {
      Neighbour(address, sendList.log, receiveList.log, validBuffer.buf)
    }

    /** A table no neighbour uses yet. */
    ghost predicate Unused()
      reads objects
    {
      Valid() && Contents() == Neighbour(NULL_ADDR, [], [], EmptyBuffer)
    }

    /** initRangingTable */
    constructor ()
      ensures Unused() && fresh(objects)
    {
      address := NULL_ADDR;
      var sends := new RangingList();
      var receptions := new RangingList();
      var buffer := new RangingBuffer();
      sendList, receiveList, validBuffer := sends, receptions, buffer;
      objects := {this, sends, receptions, sends.rangingList, receptions.rangingList,
                  buffer, buffer.sendBuffer, buffer.receiveBuffer};
    }

    /** Gives the table to a new neighbour. */
    method Use(neighbour: nat)
      requires Unused()
      modifies objects
      ensures Valid() && Contents() == Neighbour(neighbour, [], [], EmptyBuffer)
    {
      address := neighbour;
    }

    /** The part of generateRangingMessage that reports the newest receptions of this neighbour. */
    method NewestRxStamps() returns (rx: BodyStamps)
      requires Valid() && receiveList.log != []
      ensures rx == NewestReceptions(receiveList.log)
    {
      rx := [NullStamp, NullStamp, NullStamp];
      var index := receiveList.topRangingList;
      var count := 0;
      while count < MESSAGE_BODY_RX_SIZE && count < RANGING_LIST_SIZE
        invariant 0 <= count <= MESSAGE_BODY_RX_SIZE
        invariant index == (|receiveList.log| - 1 - count) % RANGING_LIST_SIZE
        invariant forall j :: 0 <= j < count ==> rx[j] == NewestReceptions(receiveList.log)[j]
      {
        receiveList.WalkStep(count);
        rx := rx[count := Stamp(receiveList.rangingList[index].localSeq, receiveList.rangingList[index].rx)];
        index := (index - 1 + RANGING_LIST_SIZE) % RANGING_LIST_SIZE;
        count := count + 1;
      }
    }

    // -------------------------------------------------------------- the averages that end an initialization

    /** Overwrites sumTof in slot i of the send ring. */
    method AverageSendSlot(i: nat, initTofSum: int)
      requires Valid() && |validBuffer.buf.send| == RANGING_BUFFER_SIZE && i < MESSAGE_HEAD_TX_SIZE
      modifies validBuffer`buf, validBuffer.sendBuffer
      ensures Valid() && validBuffer.buf == AverageSend(old(validBuffer.buf), i, initTofSum)
    {
      hide InitialSumTof;
      validBuffer.sendBuffer[i] := validBuffer.sendBuffer[i].(sumTof := InitialSumTof(initTofSum));
      validBuffer.buf := AverageSend(validBuffer.buf, i, initTofSum);
    }

    /** Overwrites sumTof in every used slot of the receive ring. */
    method AverageReceiveSlots(initTofSum: int)
      requires Valid() && |validBuffer.buf.receive| == RANGING_BUFFER_SIZE
      modifies validBuffer`buf, validBuffer.receiveBuffer
      ensures Valid() && validBuffer.buf == AverageReceive(old(validBuffer.buf), initTofSum)
    {
      hide InitialSumTof;
      var nodes := validBuffer.receiveBuffer;
      for k := 0 to validBuffer.receiveLength
        invariant forall j :: 0 <= j < k ==> nodes[j] == old(nodes[j]).(sumTof := InitialSumTof(initTofSum))
        invariant forall j :: k <= j < RANGING_BUFFER_SIZE ==> nodes[j] == old(nodes[j])
        invariant validBuffer.buf == old(validBuffer.buf)
      {
        nodes[k] := nodes[k].(sumTof := InitialSumTof(initTofSum));
      }
      validBuffer.buf := AverageReceive(validBuffer.buf, initTofSum);
    }

    // -------------------------------------------------------------- one calculation

    /** The RECEIVER calculation for the record in slot `index` of the receive list, while processing Tx stamp i. */
    method CalculateReceiver(ghost k: nat, index: int, i: nat, initTofSum: int, distance: Option<Distance>)
      returns (sum: int, distance': Option<Distance>)
      requires Valid() && Oldest(receiveList.log) <= k < |receiveList.log| && index == receiveList.Slot(k)
      requires i < MESSAGE_HEAD_TX_SIZE
      modifies BufferObjects()
      ensures Valid()
      ensures Progress(Contents(), sum, distance')
           == ReceiverCalculation(Progress(old(Contents()), initTofSum, distance), k, i)
    {
      hide RangingBufferSpec.CalculateTof, RangingBufferSpec.InitializeCalculateTof, AverageSend;
      if validBuffer.sendLength < MAX_INITIAL_CALCULATION {
        InitializeGrows(receiveList.log, sendList.log, k, validBuffer.buf, initTofSum, Receiver);
        sum := validBuffer.InitializeCalculateTof(receiveList, sendList, k, index, initTofSum, Receiver);
        if validBuffer.sendLength >= MAX_INITIAL_CALCULATION {
          AverageSendSlot(i, sum);
        }
        distance' := distance;
      } else {
        var node := receiveList.rangingList[index];
        var d := validBuffer.CalculateTof(node, node.localSeq, Receiver, First);
        sum, distance' := initTofSum, Later(distance, d);
      }
    }

    /** The SENDER calculation for the newest record of the send list, which is in slot `index`. */
    method CalculateSender(index: int, initTofSum: int, distance: Option<Distance>)
      returns (sum: int, distance': Option<Distance>)
      requires Valid() && sendList.log != [] && index == sendList.Slot(|sendList.log| - 1)
      modifies BufferObjects()
      ensures Valid()
      ensures Progress(Contents(), sum, distance')
           == SenderCalculation(Progress(old(Contents()), initTofSum, distance))
    {
      hide RangingBufferSpec.CalculateTof, RangingBufferSpec.InitializeCalculateTof, AverageReceive;
      ghost var k := |sendList.log| - 1;
      if validBuffer.receiveLength < MAX_INITIAL_CALCULATION {
        InitializeGrows(sendList.log, receiveList.log, k, validBuffer.buf, initTofSum, Sender);
        sum := validBuffer.InitializeCalculateTof(sendList, receiveList, k, index, initTofSum, Sender);
        if validBuffer.receiveLength >= MAX_INITIAL_CALCULATION {
          AverageReceiveSlots(sum);
        }
        distance' := distance;
      } else {
        var node := sendList.rangingList[index];
        var d := validBuffer.CalculateTof(node, node.localSeq, Sender, First);
        sum, distance' := initTofSum, Later(distance, d);
      }
    }

    // -------------------------------------------------------------- the loops over a message

    /** The loop over the Tx timestamps of the header, from the oldest to the newest. */
    method ProcessHeader(tx: HeadStamps, initTofSum: int) returns (sum: int, distance: Option<Distance>)
      requires Valid()
      modifies ListObjects(), BufferObjects()
      ensures Valid()
      ensures Progress(Contents(), sum, distance)
           == HeaderLoop(Progress(old(Contents()), initTofSum, None), tx, MESSAGE_HEAD_TX_SIZE)
    {
      sum, distance := initTofSum, None;
      var i := MESSAGE_HEAD_TX_SIZE;
      while i > 0
        invariant Valid() && 0 <= i <= MESSAGE_HEAD_TX_SIZE
        invariant HeaderLoop(Progress(Contents(), sum, distance), tx, i)
               == HeaderLoop(Progress(old(Contents()), initTofSum, None), tx, MESSAGE_HEAD_TX_SIZE)
      {
        i := i - 1;
        sum, distance := ProcessTxStamp(tx[i], i, sum, distance);
      }
    }

    method ProcessTxStamp(s: Stamp, i: nat, initTofSum: int, distance: Option<Distance>)
      returns (sum: int, distance': Option<Distance>)
      requires Valid() && i < MESSAGE_HEAD_TX_SIZE
      modifies ListObjects(), BufferObjects()
      ensures Valid()
      ensures Progress(Contents(), sum, distance') == HeaderStep(Progress(old(Contents()), initTofSum, distance), i, s)
    {
      hide ReceiverCalculation, Find;
      sum, distance' := initTofSum, distance;
      if s.seqNo == NULL_SEQ {
        return;
      }
      ghost var found := Find(receiveList.log, s.seqNo);
      var index := receiveList.FindLocalSeqIndex(s.seqNo);
      if index == NULL_DONE_INDEX {
        return;
      }
      if index != NULL_INDEX {
        receiveList.FillRx(found.index, index, s.time, s.seqNo);
        sum, distance' := CalculateReceiver(found.index, index, i, initTofSum, distance);
      }
    }

    /** The loop over the Rx timestamps of the body unit addressed to this drone, from the oldest to the newest. */
    method ProcessUnit(sends: SendHistory, rx: BodyStamps, initTofSum: int)
      returns (sum: int, distance: Option<Distance>)
      requires Valid() && sends.Valid()
      modifies ListObjects(), BufferObjects()
      ensures Valid() && sends.Valid() && sends.history == old(sends.history)
      ensures Progress(Contents(), sum, distance)
           == BodyLoop(Progress(old(Contents()), initTofSum, None), sends.history, rx, MESSAGE_BODY_RX_SIZE)
    {
      sum, distance := initTofSum, None;
      var j := MESSAGE_BODY_RX_SIZE;
      while j > 0
        invariant Valid() && 0 <= j <= MESSAGE_BODY_RX_SIZE
        invariant sends.Valid() && sends.history == old(sends.history)
        invariant BodyLoop(Progress(Contents(), sum, distance), sends.history, rx, j)
               == BodyLoop(Progress(old(Contents()), initTofSum, None), sends.history, rx, MESSAGE_BODY_RX_SIZE)
      {
        j := j - 1;
        sum, distance := ProcessRxStamp(sends, rx[j], sum, distance);
      }
    }

    method ProcessRxStamp(sends: SendHistory, s: Stamp, initTofSum: int, distance: Option<Distance>)
      returns (sum: int, distance': Option<Distance>)
      requires Valid() && sends.Valid()
      modifies ListObjects(), BufferObjects()
      ensures Valid() && sends.Valid() && sends.history == old(sends.history)
      ensures Progress(Contents(), sum, distance')
           == BodyStep(Progress(old(Contents()), initTofSum, distance), sends.history, s)
    {
      hide SenderCalculation, Find, FindSend;
      sum, distance' := initTofSum, distance;
      if s.seqNo == NULL_SEQ {
        return;
      }
      var sendIndex := sends.FindLocalSendBuffer(s.seqNo);
      var done := sendList.FindLocalSeqIndex(s.seqNo);
      if done == NULL_DONE_INDEX {
        return;
      }
      if sendIndex != NULL_INDEX {
        var local := sends.localSendBuffer[sendIndex];
        assert FullRecord(sends.history, s) == ListNode(local.time, s.time, local.seqNo, s.seqNo);
        var index := sendList.AddFull(ListNode(local.time, s.time, local.seqNo, s.seqNo));
        sum, distance' := CalculateSender(index, initTofSum, distance);
      }
    }

    /** The body unit addressed to this drone: the first one with its address. */
    static method FindUnit(units: BodyUnits, localAddress: nat) returns (r: int)
      ensures r == UnitTo(units, localAddress)
    {
      for i := 0 to MESSAGE_BODY_UNIT_SIZE
        invariant forall j :: 0 <= j < i ==> units[j].dest != localAddress
      {
        if units[i].dest == localAddress {
          return i;
        }
      }
      return NULL_INDEX;
    }

    /** The part of processRangingMessage that concerns the table of the sender; n is the drone it belongs to. */
    method ProcessMessage(ghost n: Node, localAddress: nat, sends: SendHistory, m: Inbound, initTofSum: int)
      returns (sum: int, distance: Option<Distance>)
      requires Valid() && sends.Valid()
      requires n.address == localAddress && n.history == sends.history && n.initTofSum == initTofSum
      modifies objects
      ensures Valid() && sends.Valid()
      ensures var (p, d) := ProcessFor(old(Contents()), n, m);
              Contents() == p.nb && sum == p.initTofSum && distance == d
    {
      hide HeaderLoop, BodyLoop, UnitTo;
      receiveList.AddRx(m.rx, m.msg.seqNo);
      var header: Option<Distance>;
      sum, header := ProcessHeader(m.msg.tx, initTofSum);
      var unit := FindUnit(m.msg.units, localAddress);
      var body: Option<Distance> := None;
      if unit != NULL_INDEX {
        sum, body := ProcessUnit(sends, m.msg.units[unit].rx, sum);
      }
      distance := Combine(header, body);
    }
  }
}
