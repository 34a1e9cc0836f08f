/** The send side under message loss: reports of receptions repeat and the ring forgets, yet no sequence number
    is ever pushed twice and the pushes come in increasing order. */
module ExactlyOnce {
  import opened Config
  import opened RangingListSpec
  import opened RangingBufferSpec
  import opened NodeSpec
  import opened LossTolerance

  /** The neighbour received our sends with the sequence numbers `heard`, in this order. */
  ghost predicate Sorted(heard: seq<nat>) {
    forall i, j :: 0 <= i < j < |heard| ==> heard[i] < heard[j]
  }

  function Seqs(log: Log): (s: seq<nat>)
    ensures |s| == |log| && forall i :: 0 <= i < |log| ==> s[i] == log[i].localSeq
  {
    seq(|log|, i requires 0 <= i < |log| => log[i].localSeq)
  }

  /** A body unit reports the newest receptions as of the moment when the neighbour had made k of them. */
  ghost predicate Reports(rx: BodyStamps, heard: seq<nat>, k: nat) {
    && k <= |heard|
    && forall i :: 0 <= i < MESSAGE_BODY_RX_SIZE ==> rx[i].seqNo == if i < k then heard[k - 1 - i] else NULL_SEQ
  }

  lemma GeneratedReport(log: Log)
    ensures Reports(NewestReceptions(log), Seqs(log), |log|)
  {
  }

  function WindowStart(k: nat): nat {
    if k <= MESSAGE_BODY_RX_SIZE then 0 else k - MESSAGE_BODY_RX_SIZE
  }

  ghost predicate InList(sendList: Log, seqNo: nat) {
    exists i :: 0 <= i < |sendList| && sendList[i].localSeq == seqNo
  }

  /** The send history does not remember the sequence number any more. */
  predicate Forgotten(seqNo: nat, sent: nat) { seqNo + LOCAL_SEND_BUFFER_SIZE <= sent }

  /** Every push so far carried one of heard[..c]; the pushes are in increasing order; and from position lo on,
      everything in heard[..c] was pushed or is forgotten. */
  ghost predicate Once(sendList: Log, heard: seq<nat>, c: nat, lo: nat, sent: nat) {
    && c <= |heard|
    && Increasing(sendList)
    && (forall i :: 0 <= i < |sendList| ==> sendList[i].remoteSeq == sendList[i].localSeq)
    && (forall i :: 0 <= i < |sendList| ==> sendList[i].localSeq in heard[..c])
    && (forall j :: lo <= j < c ==> InList(sendList, heard[j]) || Forgotten(heard[j], sent))
  }

  /** What the reports of one neighbour have achieved after one that covered k receptions. */
  ghost predicate UpToReport(sendList: Log, heard: seq<nat>, k: nat, sent: nat) {
    Once(sendList, heard, k, WindowStart(k), sent)
  }

  /** Later sends and receptions leave the achievement standing. */
  lemma UpToReportIsStable(sendList: Log, heard: seq<nat>, heard': seq<nat>, k: nat, sent: nat, sent': nat)
    requires UpToReport(sendList, heard, k, sent) && heard <= heard' && sent <= sent'
    ensures UpToReport(sendList, heard', k, sent')
  {
    assert heard'[..k] == heard[..k];
  }

  /** The record at i holds heard[j]; then the record at i' >= i holds some heard[j'] with j' at least as far
      beyond j as i' is beyond i. */
  lemma {:induction false} Spread(sendList: Log, heard: seq<nat>, c: nat, i: nat, j: nat, i': nat) returns (j': nat)
    requires c <= |heard| && Sorted(heard) && Increasing(sendList)
    requires forall m :: 0 <= m < |sendList| ==> sendList[m].localSeq in heard[..c]
    requires i <= i' < |sendList| && j < c && sendList[i].localSeq == heard[j]
    ensures j' < c && sendList[i'].localSeq == heard[j'] && j' - j >= i' - i
  {
    if i == i' {
      j' := j;
    } else {
      var j0 := Spread(sendList, heard, c, i, j, i' - 1);
      assert sendList[i'].localSeq in heard[..c];
      j' :| 0 <= j' < c && heard[..c][j'] == sendList[i'].localSeq;
      assert heard[j0] < heard[j'];
      assert j' > j0;
    }
  }

  /** Something pushed from within the report window is still in the ring, so the lookup says Done. */
  lemma PushedIsDone(sendList: Log, heard: seq<nat>, c: nat, lo: nat, sent: nat, j: nat)
    requires Once(sendList, heard, c, lo, sent) && Sorted(heard) && lo <= j < c
    requires c - j <= MESSAGE_BODY_RX_SIZE
    requires InList(sendList, heard[j])
    ensures Find(sendList, heard[j]).Done?
  {
    var i :| 0 <= i < |sendList| && sendList[i].localSeq == heard[j];
    var j' := Spread(sendList, heard, c, i, j, |sendList| - 1);
    assert |sendList| - i <= MESSAGE_BODY_RX_SIZE;
    assert TxDone(sendList[i], heard[j]);
    FindInHit(sendList, heard[j], Oldest(sendList), |sendList|, i);
  }

  /** Something not reported before is not in the list. */
  lemma NewIsMissing(sendList: Log, heard: seq<nat>, c: nat, lo: nat, sent: nat)
    requires Once(sendList, heard, c, lo, sent) && Sorted(heard) && c < |heard|
    ensures forall i :: 0 <= i < |sendList| ==> sendList[i].localSeq < heard[c]
    ensures Find(sendList, heard[c]).Missing?
  {
    forall i | 0 <= i < |sendList|
      ensures sendList[i].localSeq < heard[c]
    {
      assert sendList[i].localSeq in heard[..c];
    }
    FindInMiss(sendList, heard[c], Oldest(sendList), |sendList|);
  }

  lemma SenderCalculationKeepsList(p: Progress)
    requires p.nb.sendList != []
    ensures SenderCalculation(p).nb.sendList == p.nb.sendList
  {
    hide CalculateTof, InitializeCalculateTof, AverageReceive, Length;
  }

  /** The send list after one report. */
  function NextSendList(sendList: Log, history: History, s: Stamp): Log {
    if Pushes(sendList, history, s) then sendList + [FullRecord(history, s)] else sendList
  }

  lemma BodyStepList(p: Progress, history: History, s: Stamp)
    ensures BodyStep(p, history, s).nb.sendList == NextSendList(p.nb.sendList, history, s)
  {
    hide SenderCalculation, Find, FindSend;
    if Pushes(p.nb.sendList, history, s) {
      SenderCalculationKeepsList(p.(nb := p.nb.(sendList := p.nb.sendList + [FullRecord(history, s)])));
    }
  }

  /** A repeated report changes nothing. */
  lemma RepeatedReport(sendList: Log, heard: seq<nat>, c: nat, lo: nat, history: History, s: Stamp, j: nat)
    requires Numbered(history) && Sorted(heard)
    requires Once(sendList, heard, c, lo, |history|) && lo <= j < c && c - j <= MESSAGE_BODY_RX_SIZE
    requires s.seqNo == heard[j]
    ensures !Pushes(sendList, history, s)
  {
    hide Once;
    CoveredOrForgotten(sendList, heard, c, lo, |history|, j);
    if InList(sendList, heard[j]) {
      PushedIsDone(sendList, heard, c, lo, |history|, j);
    } else {
      FindSendIffRecent(history, s.seqNo);
    }
  }

  lemma CoveredOrForgotten(sendList: Log, heard: seq<nat>, c: nat, lo: nat, sent: nat, j: nat)
    requires Once(sendList, heard, c, lo, sent) && lo <= j < c
    ensures c <= |heard|
    ensures InList(sendList, heard[j]) || Forgotten(heard[j], sent)
  {
  }

  /** The first report of a reception pushes it, unless its send is forgotten. */
  lemma FirstReport(sendList: Log, heard: seq<nat>, c: nat, lo: nat, history: History, s: Stamp)
    requires Numbered(history) && Sorted(heard)
    requires Once(sendList, heard, c, lo, |history|) && c < |heard|
    requires s.seqNo == heard[c] && 1 <= heard[c] <= |history|
    ensures Pushes(sendList, history, s) <==> !Forgotten(heard[c], |history|)
    ensures Once(NextSendList(sendList, history, s), heard, c + 1, lo, |history|)
  {
    hide Find, FindSend;
    NewIsMissing(sendList, heard, c, lo, |history|);
    FindSendIffRecent(history, s.seqNo);
    var next := NextSendList(sendList, history, s);
    assert heard[..c + 1] == heard[..c] + [heard[c]];
    forall j | lo <= j < c + 1
      ensures InList(next, heard[j]) || Forgotten(heard[j], |history|)
    {
      if j < c && InList(sendList, heard[j]) {
        var i :| 0 <= i < |sendList| && sendList[i].localSeq == heard[j];
        assert next[i].localSeq == heard[j];
      }
      if j == c && |next| > |sendList| {
        assert next[|sendList|].localSeq == heard[c];
      }
    }
  }

  function Max(a: nat, b: nat): nat { if a < b then b else a }

  /** The body loop over a report of k receptions, entered with everything before position c settled. */
  lemma {:induction false} BodyLoopOnce(p: Progress, history: History, rx: BodyStamps, heard: seq<nat>,
                                        c: nat, k: nat, i: nat)
    requires Numbered(history) && Sorted(heard) && Reports(rx, heard, k) && i <= MESSAGE_BODY_RX_SIZE
    requires forall j :: 0 <= j < |heard| ==> 1 <= heard[j] <= |history|
    requires Once(p.nb.sendList, heard, c, WindowStart(k), |history|)
    requires k <= i + c && c <= k
    ensures var sendList := BodyLoop(p, history, rx, i).nb.sendList;
            && Once(sendList, heard, k, WindowStart(k), |history|)
            && p.nb.sendList <= sendList
            && forall m :: |p.nb.sendList| <= m < |sendList| ==> sendList[m].localSeq !in heard[..c]
    decreases i
  {
    hide Once, Pushes, BodyStep;
    if i != 0 {
      var s := rx[i - 1];
      var next := BodyStep(p, history, s);
      BodyStepList(p, history, s);
      if i > k {
        assert !Pushes(p.nb.sendList, history, s) by { NullIsNotPushed(p.nb.sendList, history, s); }
        BodyLoopOnce(next, history, rx, heard, c, k, i - 1);
      } else if k - i < c {
        RepeatedReport(p.nb.sendList, heard, c, WindowStart(k), history, s, k - i);
        BodyLoopOnce(next, history, rx, heard, c, k, i - 1);
      } else {
        FirstReport(p.nb.sendList, heard, c, WindowStart(k), history, s);
        BodyLoopOnce(next, history, rx, heard, c + 1, k, i - 1);
        assert heard[..c + 1] == heard[..c] + [heard[c]];
        NotBefore(heard, c);
        NextListShape(p.nb.sendList, history, s);
      }
    }
  }

  lemma NullIsNotPushed(sendList: Log, history: History, s: Stamp)
    requires s.seqNo == NULL_SEQ
    ensures !Pushes(sendList, history, s)
  {
  }

  lemma NotBefore(heard: seq<nat>, c: nat)
    requires Sorted(heard) && c < |heard|
    ensures heard[c] !in heard[..c]
  {
  }

  lemma NextListShape(sendList: Log, history: History, s: Stamp)
    ensures var next := NextSendList(sendList, history, s);
            next == sendList || (|next| == |sendList| + 1 && sendList <= next && next[|sendList|].localSeq == s.seqNo)
  {
  }

  /** A report covering k' >= k receptions, processed after one that covered k: afterwards the window is
      settled again, earlier pushes stay, and every new push is of a reception made after the first k. So
      the sequence numbers pushed over a whole run are strictly increasing and none is pushed twice. */
  lemma ReportAfterReport(p: Progress, history: History, rx: BodyStamps, heard: seq<nat>, k: nat, k': nat)
    requires Numbered(history) && Sorted(heard) && Reports(rx, heard, k') && k <= k'
    requires forall j :: 0 <= j < |heard| ==> 1 <= heard[j] <= |history|
    requires UpToReport(p.nb.sendList, heard, k, |history|)
    ensures var sendList := BodyLoop(p, history, rx, MESSAGE_BODY_RX_SIZE).nb.sendList;
            && UpToReport(sendList, heard, k', |history|)
            && p.nb.sendList <= sendList
            && forall m :: |p.nb.sendList| <= m < |sendList| ==> sendList[m].localSeq !in heard[..k]
  {
    var c := Max(k, WindowStart(k'));
    assert forall i :: 0 <= i < |p.nb.sendList| ==> p.nb.sendList[i].localSeq in heard[..c] by {
      PrefixMembers(heard, k, c);
    }
    assert Once(p.nb.sendList, heard, c, WindowStart(k'), |history|);
    BodyLoopOnce(p, history, rx, heard, c, k', MESSAGE_BODY_RX_SIZE);
    PrefixMembers(heard, k, c);
  }

  lemma PrefixMembers(heard: seq<nat>, k: nat, c: nat)
    requires k <= c <= |heard|
    ensures forall x :: x in heard[..k] ==> x in heard[..c]
  {
    forall x | x in heard[..k]
      ensures x in heard[..c]
    {
      var i :| 0 <= i < k && heard[..k][i] == x;
      assert heard[..c][i] == x;
    }
  }

  // ---------------------------------------------------------------- what is pushed

  /** A pushed record pairs the local send time of a sequence number with the reception time reported for it. */
  ghost predicate PushedFrom(history: History, rx: BodyStamps, node: ListNode) {
    && node.remoteSeq == node.localSeq
    && 1 <= node.localSeq <= |history|
    && node.tx == history[node.localSeq - 1].time
    && Stamp(node.localSeq, node.rx) in rx
  }

  lemma {:induction false} BodyLoopPushes(p: Progress, history: History, rx: BodyStamps, i: nat)
    requires Numbered(history) && i <= MESSAGE_BODY_RX_SIZE
    ensures var sendList := BodyLoop(p, history, rx, i).nb.sendList;
            && p.nb.sendList <= sendList
            && forall m :: |p.nb.sendList| <= m < |sendList| ==> PushedFrom(history, rx, sendList[m])
    decreases i
  {
    hide Pushes, BodyStep, PushedFrom;
    if i != 0 {
      var s := rx[i - 1];
      BodyStepList(p, history, s);
      var next := BodyStep(p, history, s);
      BodyLoopPushes(next, history, rx, i - 1);
      if Pushes(p.nb.sendList, history, s) {
        OnePush(p.nb.sendList, history, rx, s);
      }
    }
  }

  lemma OnePush(sendList: Log, history: History, rx: BodyStamps, s: Stamp)
    requires Numbered(history) && s in rx && Pushes(sendList, history, s)
    ensures PushedFrom(history, rx, FullRecord(history, s))
  {
    FindSendIffRecent(history, s.seqNo);
  }
}
