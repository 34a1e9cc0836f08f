/** The ring of the latest local sends (`localSendBuffer`): the third ring of a drone. Unlike the other two it starts
    at top = 0, so the i-th send lives in slot (i + 1) % LOCAL_SEND_BUFFER_SIZE. */
module SendHistories {
  import opened Config
  import opened NodeSpec

  class SendHistory {
    const localSendBuffer: array<Stamp>
    var topLocalSendBuffer: nat
    ghost var history: History

    /** The ring slot of the i-th send, and NULL_INDEX for none. */
    function Slot(i: int): int {
      if i < 0 then NULL_INDEX else (i + 1) % LOCAL_SEND_BUFFER_SIZE
    }

    ghost predicate Valid()
      reads this, localSendBuffer
    {
      && localSendBuffer.Length == LOCAL_SEND_BUFFER_SIZE
      && topLocalSendBuffer == |history| % LOCAL_SEND_BUFFER_SIZE
      && (forall i :: OldestSend(history) <= i < |history| ==> localSendBuffer[Slot(i)] == history[i])
      && (forall i :: |history| <= i < LOCAL_SEND_BUFFER_SIZE ==> localSendBuffer[Slot(i)] == NullStamp)
    }

    /** The part of initRangingTableSet that empties the local send buffer. */
    constructor ()
      ensures Valid() && history == [] && fresh(localSendBuffer)
    {
      localSendBuffer := new Stamp[LOCAL_SEND_BUFFER_SIZE](_ => NullStamp);
      topLocalSendBuffer := 0;
      history := [];
    }

    /** Two sends in one window of LOCAL_SEND_BUFFER_SIZE share a slot only if they are equal. */
    lemma SlotsDistinct(i: nat)
      ensures forall j | 0 <= j && i - LOCAL_SEND_BUFFER_SIZE < j < i + LOCAL_SEND_BUFFER_SIZE ::
                Slot(j) == Slot(i) ==> j == i
    {
    }

    /** addLocalSendBuffer */
    method AddLocalSendBuffer(seqNo: nat, time: nat)
      requires Valid()
      modifies this, localSendBuffer
      ensures Valid() && history == old(history) + [Stamp(seqNo, time)]
    {
      SlotsDistinct(|history|);
      topLocalSendBuffer := (topLocalSendBuffer + 1) % LOCAL_SEND_BUFFER_SIZE;
      assert topLocalSendBuffer == Slot(|history|);
      localSendBuffer[topLocalSendBuffer] := Stamp(seqNo, time);
      history := history + [Stamp(seqNo, time)];
    }

    lemma WalkStep(count: nat)
      requires Valid() && count < LOCAL_SEND_BUFFER_SIZE
      ensures localSendBuffer[(|history| - count) % LOCAL_SEND_BUFFER_SIZE]
           == if count < |history| then history[|history| - 1 - count] else NullStamp
      ensures ((|history| - count) % LOCAL_SEND_BUFFER_SIZE - 1 + LOCAL_SEND_BUFFER_SIZE) % LOCAL_SEND_BUFFER_SIZE
           == (|history| - (count + 1)) % LOCAL_SEND_BUFFER_SIZE
    {
      if count >= |history| {
        var i := |history| - count + LOCAL_SEND_BUFFER_SIZE - 1;
        assert Slot(i) == (|history| - count) % LOCAL_SEND_BUFFER_SIZE;
      }
    }

    /** How far down the sends a walk of `count` slots has come. */
    ghost function WalkedTo(count: nat): nat
      reads this
    {
      if count <= |history| then |history| - count else 0
    }

    /** findLocalSendBuffer: the slot of the send the specification names, or NULL_INDEX. */
    method FindLocalSendBuffer(seqNo: nat) returns (r: int)
      requires Valid()
      ensures r == Slot(FindSend(history, seqNo))
    {
      var index: int := topLocalSendBuffer;
      var count := 0;
      while localSendBuffer[index].seqNo != NULL_SEQ && count < LOCAL_SEND_BUFFER_SIZE
        invariant 0 <= count <= LOCAL_SEND_BUFFER_SIZE
        invariant index == (|history| - count) % LOCAL_SEND_BUFFER_SIZE
        invariant WalkedTo(count) >= OldestSend(history)
        invariant FindSend(history, seqNo) == FindSendIn(history, seqNo, OldestSend(history), WalkedTo(count))
        decreases LOCAL_SEND_BUFFER_SIZE - count
      {
        WalkStep(count);
        if localSendBuffer[index].seqNo == seqNo {
          return index;
        }
        index := (index - 1 + LOCAL_SEND_BUFFER_SIZE) % LOCAL_SEND_BUFFER_SIZE;
        count := count + 1;
      }
      if count < LOCAL_SEND_BUFFER_SIZE { WalkStep(count); }
      return NULL_INDEX;
    }

    /** The part of generateRangingMessage that lists the newest sends in the header. */
    method NewestTxStamps() returns (tx: HeadStamps)
      requires Valid()
      ensures tx == NewestSends(history)
      ensures forall i :: 0 <= i < MESSAGE_HEAD_TX_SIZE ==>
                if i < |history| && forall j :: |history| - 1 - i <= j < |history| ==> history[j].time != 0
                then tx[i] == history[|history| - 1 - i] else tx[i].seqNo == 0 && tx[i].time == 0
    {
      tx := [NullStamp, NullStamp, NullStamp];
      var index: int := topLocalSendBuffer;
      ghost var walked := 0;
      for i := 0 to MESSAGE_HEAD_TX_SIZE
        invariant walked <= i && index == (|history| - walked) % LOCAL_SEND_BUFFER_SIZE && Stamped(history, walked)
        invariant walked < i ==> !Stamped(history, walked + 1)
        invariant forall j :: 0 <= j < i ==> tx[j] == NewestSends(history)[j]
      {
        WalkStep(walked);
        if localSendBuffer[index].time != NULL_TIMESTAMP {
          tx := tx[i := localSendBuffer[index]];
          index := (index - 1 + LOCAL_SEND_BUFFER_SIZE) % LOCAL_SEND_BUFFER_SIZE;
          walked := walked + 1;
        } else {
          tx := tx[i := NullStamp];
        }
      }
    }
  }
}
