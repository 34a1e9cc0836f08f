/** The list of single communications with one neighbour (`RangingList_t`).

    The specification keeps every record ever pushed, oldest first; the ring of RANGING_LIST_SIZE slots
    only remembers the newest of them. Position i of the log lives in slot i % RANGING_LIST_SIZE. */
module RangingListSpec {
  import opened Config

  datatype ListNode = ListNode(tx: nat, rx: nat, localSeq: nat, remoteSeq: nat)

  const NullNode := ListNode(NULL_TIMESTAMP, NULL_TIMESTAMP, NULL_SEQ, NULL_SEQ)

  type Log = seq<ListNode>

  /** The oldest position the ring still remembers. */
  function Oldest(log: Log): nat {
    if |log| <= RANGING_LIST_SIZE then 0 else |log| - RANGING_LIST_SIZE
  }

  // ---------------------------------------------------------------- adding

  /** What the reused slot still holds as its Tx timestamp. */
  function StaleTx(log: Log): nat {
    if |log| < RANGING_LIST_SIZE then NULL_TIMESTAMP else log[|log| - RANGING_LIST_SIZE].tx
  }

  function AddReceived(log: Log, rx: nat, seqNo: nat): Log {
    log + [ListNode(StaleTx(log), rx, seqNo, NULL_SEQ)]
  }

  /** The search for full records judges by timestamps alone, so a new reception in a reused slot can pass for full
      before its Tx half has come: exactly if the record it replaces had a Tx timestamp. */
  lemma LooksFullBeforeFilled(log: Log, rx: nat, seqNo: nat)
    requires rx != NULL_TIMESTAMP
    ensures var node := AddReceived(log, rx, seqNo)[|log|];
            && node.remoteSeq == NULL_SEQ
            && (Full(node) <==> |log| >= RANGING_LIST_SIZE && log[|log| - RANGING_LIST_SIZE].tx != NULL_TIMESTAMP)
  {
  }

  function FillTx(log: Log, i: nat, tx: nat, seqNo: nat): Log
    requires i < |log|
  {
    log[i := log[i].(tx := tx, remoteSeq := seqNo)]
  }

  // ---------------------------------------------------------------- nearest record

  /** The local clock of the record: Rx when searching with SENDER, Tx when searching with RECEIVER. */
  function Key(node: ListNode, status: Status): nat {
    if status.Sender? then node.rx else node.tx
  }

  predicate Full(node: ListNode) { node.tx != NULL_TIMESTAMP && node.rx != NULL_TIMESTAMP }

  predicate Eligible(node: ListNode, time: nat, status: Status) {
    Full(node) && Key(node, status) < time
  }

  /** r is the eligible position of log[lo..] with the greatest key, the newest one among equals. */
  ghost predicate IsNearest(log: Log, time: nat, status: Status, lo: nat, r: int) {
    if r == NULL_INDEX then
      forall j :: lo <= j < |log| ==> !Eligible(log[j], time, status)
    else
      && lo <= r < |log|
      && Eligible(log[r], time, status)
      && (forall j :: lo <= j < |log| && Eligible(log[j], time, status) ==> Key(log[j], status) <= Key(log[r], status))
      && (forall j :: r < j < |log| && Eligible(log[j], time, status) ==> Key(log[j], status) < Key(log[r], status))
  }

  /** The backward walk from the newest record down to position lo. */
  function Nearest(log: Log, time: nat, status: Status, lo: nat): (r: int)
    requires lo <= |log|
    ensures IsNearest(log, time, status, lo, r)
    decreases |log| - lo
  {
    if lo == |log| then NULL_INDEX
    else
      var r := Nearest(log, time, status, lo + 1);
      if Eligible(log[lo], time, status) && (r == NULL_INDEX || Key(log[lo], status) > Key(log[r], status)) then lo
      else r
  }

  lemma NearestIsUnique(log: Log, time: nat, status: Status, lo: nat, r: int, s: int)
    requires IsNearest(log, time, status, lo, r) && IsNearest(log, time, status, lo, s)
    ensures r == s
  {
    if r != NULL_INDEX && s != NULL_INDEX {
      assert Eligible(log[r], time, status) && Eligible(log[s], time, status);
    }
  }

  /** searchRangingList */
  function Search(log: Log, time: nat, status: Status): (r: int)
    ensures IsNearest(log, time, status, Oldest(log), r)
    ensures r == NULL_INDEX || Oldest(log) <= r < |log|
  {
    Nearest(log, time, status, Oldest(log))
  }

  // ---------------------------------------------------------------- lookup by sequence number

  datatype Lookup = Done | At(index: nat) | Missing

  predicate TxDone(node: ListNode, seqNo: nat) { node.remoteSeq != NULL_SEQ && node.remoteSeq == seqNo }

  predicate TxOpen(node: ListNode, seqNo: nat) { node.localSeq != NULL_SEQ && node.localSeq == seqNo }

  /** The backward walk over log[lo..hi], stopping at the first record that answers. */
  function FindIn(log: Log, seqNo: nat, lo: nat, hi: nat): (r: Lookup)
    requires lo <= hi <= |log|
    ensures r.At? ==> lo <= r.index < hi
    decreases hi
  {
    if hi == lo then Missing
    else if TxDone(log[hi - 1], seqNo) then Done
    else if TxOpen(log[hi - 1], seqNo) then At(hi - 1)
    else FindIn(log, seqNo, lo, hi - 1)
  }

  /** findLocalSeqIndex */
  function Find(log: Log, seqNo: nat): (r: Lookup)
    ensures r.At? ==> Oldest(log) <= r.index < |log|
  {
    FindIn(log, seqNo, Oldest(log), |log|)
  }

  /** The newest record in the window that answers decides: one already processed means Done, one still
      waiting for its Tx half is the answer, and Missing means that no record answers. */
  lemma {:induction false} FindInMeaning(log: Log, seqNo: nat, lo: nat, hi: nat)
    requires lo <= hi <= |log|
    ensures match FindIn(log, seqNo, lo, hi)
            case Missing => forall j :: lo <= j < hi ==> !TxOpen(log[j], seqNo) && !TxDone(log[j], seqNo)
            case At(i) =>
              && TxOpen(log[i], seqNo) && !TxDone(log[i], seqNo)
              && forall j :: i < j < hi ==> !TxOpen(log[j], seqNo) && !TxDone(log[j], seqNo)
            case Done =>
              exists i :: lo <= i < hi && TxDone(log[i], seqNo)
                       && forall j :: i < j < hi ==> !TxOpen(log[j], seqNo) && !TxDone(log[j], seqNo)
    decreases hi
  {
    if hi != lo && !TxDone(log[hi - 1], seqNo) && !TxOpen(log[hi - 1], seqNo) {
      FindInMeaning(log, seqNo, lo, hi - 1);
    }
  }

  /** The record at i answers and nothing newer does. */
  lemma {:induction false} FindInHit(log: Log, seqNo: nat, lo: nat, hi: nat, i: nat)
    requires lo <= i < hi <= |log|
    requires TxDone(log[i], seqNo) || TxOpen(log[i], seqNo)
    requires forall j :: i < j < hi ==> !TxOpen(log[j], seqNo) && !TxDone(log[j], seqNo)
    ensures FindIn(log, seqNo, lo, hi) == if TxDone(log[i], seqNo) then Done else At(i)
    decreases hi
  {
    if i < hi - 1 {
      FindInHit(log, seqNo, lo, hi - 1, i);
    }
  }

  lemma {:induction false} FindInMiss(log: Log, seqNo: nat, lo: nat, hi: nat)
    requires lo <= hi <= |log|
    requires forall j :: lo <= j < hi ==> !TxOpen(log[j], seqNo) && !TxDone(log[j], seqNo)
    ensures FindIn(log, seqNo, lo, hi) == Missing
    decreases hi
  {
    if lo < hi {
      FindInMiss(log, seqNo, lo, hi - 1);
    }
  }
}

module RangingLists {
  import opened Config
  import opened RangingListSpec

  const NULL_DONE_INDEX: int := -2

  class RangingList {
    const rangingList: array<ListNode>
    var topRangingList: int
    ghost var log: Log

    ghost predicate Valid()
      reads this, rangingList
    {
      && rangingList.Length == RANGING_LIST_SIZE
      && topRangingList == (if log == [] then NULL_INDEX else (|log| - 1) % RANGING_LIST_SIZE)
      && (forall i :: Oldest(log) <= i < |log| ==> rangingList[i % RANGING_LIST_SIZE] == log[i])
      && (forall j :: |log| <= j < RANGING_LIST_SIZE ==> rangingList[j] == NullNode)
    }

    /** initRangingList */
    constructor ()
      ensures Valid() && log == [] && fresh(rangingList)
    {
      rangingList := new ListNode[RANGING_LIST_SIZE](_ => NullNode);
      topRangingList := NULL_INDEX;
      log := [];
    }

    /** The ring slot of a log position, and NULL_INDEX for none. */
    function Slot(i: int): int {
      if i < 0 then NULL_INDEX else i % RANGING_LIST_SIZE
    }

    /** addRangingList with RECEIVER and NULL_INDEX: the Rx half, into the next slot. */
    method AddRx(rx: nat, seqNo: nat)
      requires Valid()
      modifies this`topRangingList, this`log, rangingList
      ensures Valid() && log == AddReceived(old(log), rx, seqNo)
    {
      var index := (topRangingList + 1) % RANGING_LIST_SIZE;
      SlotsDistinct(|log|);
      NextSlot();
      rangingList[index] := rangingList[index].(rx := rx, localSeq := seqNo, remoteSeq := NULL_SEQ);
      topRangingList := index;
      log := AddReceived(log, rx, seqNo);
    }

    lemma NextSlot()
      requires Valid()
      ensures (topRangingList + 1) % RANGING_LIST_SIZE == |log| % RANGING_LIST_SIZE
      ensures rangingList[|log| % RANGING_LIST_SIZE].tx == StaleTx(log)
    {
      if |log| < RANGING_LIST_SIZE {
        assert |log| % RANGING_LIST_SIZE == |log|;
      } else {
        assert (|log| - RANGING_LIST_SIZE) % RANGING_LIST_SIZE == |log| % RANGING_LIST_SIZE;
      }
    }

    /** addRangingList with RECEIVER and an index: the Tx half of a record already in the ring. */
    method FillRx(ghost i: nat, index: int, tx: nat, seqNo: nat)
      requires Valid() && Oldest(log) <= i < |log| && index == Slot(i)
      modifies this`log, rangingList
      ensures Valid() && log == FillTx(old(log), i, tx, seqNo)
    {
      SlotsDistinct(i);
      rangingList[index] := rangingList[index].(tx := tx, remoteSeq := seqNo);
      log := FillTx(log, i, tx, seqNo);
    }

    /** addRangingList with SENDER: a full record into the next slot, whose index is returned. */
    method AddFull(node: ListNode) returns (index: int)
      requires Valid()
      modifies this`topRangingList, this`log, rangingList
      ensures Valid() && log == old(log) + [node] && index == Slot(|old(log)|)
    {
      index := (topRangingList + 1) % RANGING_LIST_SIZE;
      SlotsDistinct(|log|);
      NextSlot();
      rangingList[index] := node;
      topRangingList := index;
      log := log + [node];
    }

    /** Two positions in one window of RANGING_LIST_SIZE share a slot only if they are equal. */
    lemma SlotsDistinct(i: nat)
      ensures forall j | 0 <= j && i - RANGING_LIST_SIZE < j < i + RANGING_LIST_SIZE ::
                j % RANGING_LIST_SIZE == i % RANGING_LIST_SIZE ==> j == i
    {
    }

    /** searchRangingList: the slot of the record the specification names, found by a full modular walk. */
    method Search(time: nat, status: Status) returns (ans: int)
      requires Valid()
      ensures ans == Slot(RangingListSpec.Search(log, time, status))
    {
      hide Key, IsNearest;
      var index := topRangingList;
      if index == NULL_INDEX {
        return NULL_INDEX;
      }
      ans := NULL_INDEX;
      ghost var found := NULL_INDEX;
      var count := 0;
      while count < RANGING_LIST_SIZE
        invariant 0 <= count <= RANGING_LIST_SIZE
        invariant index == (|log| - 1 - count) % RANGING_LIST_SIZE
        invariant found == NULL_INDEX || 0 <= found < |log|
        invariant found == Nearest(log, time, status, WalkedTo(count))
        invariant ans == Slot(found)
        invariant found != NULL_INDEX ==> rangingList[ans] == log[found]
      {
        WalkStep(count);
        if Eligible(rangingList[index], time, status) {
          if ans == NULL_INDEX || Key(rangingList[index], status) > Key(rangingList[ans], status) {
            ans := index;
            found := |log| - 1 - count;
          }
        }
        index := (index - 1 + RANGING_LIST_SIZE) % RANGING_LIST_SIZE;
        count := count + 1;
      }
    }

    /** How far down the log a walk of `count` slots has come. */
    ghost function WalkedTo(count: nat): nat
      reads this
    {
      if count <= |log| then |log| - count else 0
    }

    lemma WalkStep(count: nat)
      requires Valid() && log != [] && count < RANGING_LIST_SIZE
      ensures var index := (|log| - 1 - count) % RANGING_LIST_SIZE;
              if count < |log| then rangingList[index] == log[|log| - 1 - count]
              else rangingList[index] == NullNode
      ensures ((|log| - 1 - count) % RANGING_LIST_SIZE - 1 + RANGING_LIST_SIZE) % RANGING_LIST_SIZE
           == (|log| - 1 - (count + 1)) % RANGING_LIST_SIZE
    {
      if count >= |log| {
        assert (|log| - 1 - count) % RANGING_LIST_SIZE == |log| - 1 - count + RANGING_LIST_SIZE;
      }
    }

    lemma FindStart(seqNo: nat) returns (oldest: nat, result: Lookup)
      ensures oldest == Oldest(log) <= |log| && result == Find(log, seqNo)
      ensures result == FindIn(log, seqNo, oldest, WalkedTo(0))
    {
      oldest, result := Oldest(log), Find(log, seqNo);
    }

    lemma NullNodeAnswersNothing(seqNo: nat)
      ensures !TxDone(NullNode, seqNo) && !TxOpen(NullNode, seqNo)
    {
    }

    /** findLocalSeqIndex */
    method FindLocalSeqIndex(seqNo: nat) returns (r: int)
      requires Valid()
      ensures r == match Find(log, seqNo) case Done => NULL_DONE_INDEX case At(i) => Slot(i) case Missing => NULL_INDEX
    {
      hide TxDone, TxOpen, StaleTx, Find;
      NullNodeAnswersNothing(seqNo);
      ghost var oldest, result := FindStart(seqNo);
      var index := topRangingList;
      if index == NULL_INDEX {
        return NULL_INDEX;
      }
      var count := 0;
      while count < RANGING_LIST_SIZE
        invariant 0 <= count <= RANGING_LIST_SIZE
        invariant index == (|log| - 1 - count) % RANGING_LIST_SIZE
        invariant WalkedTo(count) >= oldest
        invariant result == FindIn(log, seqNo, oldest, WalkedTo(count))
      {
        WalkStep(count);
        if TxDone(rangingList[index], seqNo) {
          return NULL_DONE_INDEX;
        }
        if TxOpen(rangingList[index], seqNo) {
          return index;
        }
        index := (index - 1 + RANGING_LIST_SIZE) % RANGING_LIST_SIZE;
        count := count + 1;
      }
      return NULL_INDEX;
    }
  }
}
