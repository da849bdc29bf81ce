/** When everything replayable that a page misses is put on its way, and what keeps it there. */
module ControlLosses {
  import opened Options
  import opened ReplayLogModel
  import opened ControlChannel

  function Later(a: nat, b: nat): nat {
    if a < b then b else a
  }

  /** Everything replayable after `since` and above what the client has handled is on its way. */
  ghost predicate Complete(ch: Channel, since: nat) {
    && ch.socket.Open?
    && forall e :: e in ch.history && e.seqNo > Later(Last(ch.client.handled), since) ==> e.seqNo in Numbers(ch.socket.queue)
  }

  /** The client has handled past everything replayable after `since`. */
  ghost predicate NothingToMiss(ch: Channel, since: nat) {
    forall e :: e in ch.history ==> e.seqNo <= Later(Last(ch.client.handled), since)
  }

  /** Everything replayable after `since` and up to what the client last handled was handled. */
  ghost predicate NoHole(ch: Channel, since: nat) {
    forall e :: e in ch.history && since < e.seqNo <= Last(ch.client.handled) ==> e.seqNo in ch.client.handled
  }

  /**
   Whether the server, accepting this connection now, would report that something above the cursor was
   dropped, and it was dropped from what came after `since`.
   */
  predicate WouldMiss(ch: Channel, limits: Limits, now: int, since: nat)
    requires ch.socket.Connecting? && ch.socket.since.Some?
  {
    var log := Evict(ch.log, limits, now);
    AnswerTo(log, ch.socket.since).evicted && log.evictedUpTo > since
  }

  lemma {:induction false} InSeqNos(entries: seq<Entry>, n: nat)
    ensures n in SeqNos(entries) <==> exists e :: e in entries && e.seqNo == n
  {
    if n in SeqNos(entries) {
      var i :| 0 <= i < |entries| && SeqNos(entries)[i] == n;
      assert entries[i] in entries;
    }
    if e :| e in entries && e.seqNo == n {
      var i :| 0 <= i < |entries| && entries[i] == e;
      assert SeqNos(entries)[i] == n;
    }
  }

  /**
   Accepting a connection puts everything the client missed after `since` on the wire iff the client asked
   with a cursor and nothing after `since` and above it was dropped, or there was nothing to miss.
   */
  lemma {:induction false} AcceptCompleteIff(ch: Channel, limits: Limits, now: int, greetings: seq<string>, since: nat)
    requires Inv(ch, limits) && ch.socket.Connecting?
    ensures Complete(Accept(ch, limits, now, greetings), since) <==>
      || (ch.socket.since.Some? && !WouldMiss(ch, limits, now, since))
      || NothingToMiss(ch, since)
  {
    var after := Accept(ch, limits, now, greetings);
    var answer := AnswerTo(after.log, ch.socket.since);
    GreetingNumbers(greetings, answer);
    if ch.socket.since.None? {
      assert SeqNos([]) == [];
    } else {
      EvictDescribes(ch.log, ch.history, limits, now);
      AcceptAnswer(after.log, ch.history, ch.socket.since.value, since);
    }
  }

  /** The replay covers every entry of the history after `since` and above the cursor iff none of them was dropped. */
  lemma {:induction false} AcceptAnswer(log: Log, history: seq<Entry>, cursor: nat, since: nat)
    requires Describes(log, history)
    ensures
      var answer := AnswerTo(log, Some(cursor));
      !(answer.evicted && log.evictedUpTo > since) <==>
        forall e :: e in history && e.seqNo > Later(cursor, since) ==> e.seqNo in SeqNos(answer.entries)
  {
    var entries := AnswerTo(log, Some(cursor)).entries;
    var dropped := |history| - |log.ring|;
    if log.evictedUpTo > Later(cursor, since) {
      assert history[dropped - 1].seqNo == log.evictedUpTo;
      DroppedIsNotHeld(log, history, cursor, dropped - 1);
    } else {
      forall e | e in history && e.seqNo > Later(cursor, since)
        ensures e.seqNo in SeqNos(entries)
      {
        LaterIsHeld(log, history, e);
        AboveExactly(log.ring, cursor as real, e);
        InSeqNos(entries, e.seqNo);
      }
    }
  }

  lemma {:induction false} LaterIsHeld(log: Log, history: seq<Entry>, e: Entry)
    requires Describes(log, history) && e in history && e.seqNo > log.evictedUpTo
    ensures e in log.ring
  {
    var dropped := |history| - |log.ring|;
    var i :| 0 <= i < |history| && history[i] == e;
    assert i >= dropped;
    assert log.ring[i - dropped] == e;
  }

  lemma {:induction false} DroppedIsNotHeld(log: Log, history: seq<Entry>, cursor: nat, i: nat)
    requires Describes(log, history) && i < |history| - |log.ring|
    ensures history[i] in history && history[i].seqNo !in SeqNos(AnswerTo(log, Some(cursor)).entries)
  {
    var entries := AnswerTo(log, Some(cursor)).entries;
    InSeqNos(entries, history[i].seqNo);
    forall e | e in entries
      ensures e.seqNo != history[i].seqNo
    {
      AboveExactly(log.ring, cursor as real, e);
      var k :| 0 <= k < |log.ring| && log.ring[k] == e;
      assert e == history[|history| - |log.ring| + k];
    }
  }

  lemma {:induction false} BroadcastKeepsComplete(
      ch: Channel, limits: Limits, kind: string, now: int, isSent: bool, since: nat)
    requires Complete(ch, since) && (IsReplayable(kind) ==> isSent)
    ensures Complete(Broadcast(ch, limits, kind, now, isSent), since)
  {
    hide Numbers, Stamp, IsReplayable;
    var next := ch.log.lastSeq + 1;
    var after := Broadcast(ch, limits, kind, now, isSent);
    var sent := [Wire(kind, Some(next))];
    OneNumber(kind, next);
    NumbersConcat(ch.socket.queue, sent);
    assert next in [next];
    forall e | e in after.history && e.seqNo > Later(Last(ch.client.handled), since)
      ensures e.seqNo in Numbers(after.socket.queue)
    {
      assert e in ch.history || (IsReplayable(kind) && e == Entry(next, now, kind));
    }
  }

  lemma {:induction false} TellKeepsComplete(ch: Channel, kinds: seq<string>, since: nat)
    requires Complete(ch, since)
    ensures Complete(ch.(socket := Open(ch.socket.queue + Unnumbered(kinds))), since)
  {
    NumbersConcat(ch.socket.queue, Unnumbered(kinds));
    UnnumberedHaveNoNumbers(kinds);
    hide Numbers, Unnumbered;
    assert Numbers(ch.socket.queue) + [] == Numbers(ch.socket.queue);
  }

  lemma {:induction false} DeliverKeepsComplete(ch: Channel, limits: Limits, since: nat)
    requires Inv(ch, limits) && Complete(ch, since) && ch.socket.queue != []
    ensures Complete(Step(ch, limits, Delivering), since)
  {
    DeliveredLast(ch, limits);
    var message, rest := ch.socket.queue[0], ch.socket.queue[1..];
    var after := Step(ch, limits, Delivering);
    assert Numbers(ch.socket.queue) == NumberOf(message) + Numbers(rest);
    hide Inv, Numbers, Receive, Last;
    HeadOrRest(message, Numbers(rest));
    forall e | e in after.history && e.seqNo > Later(Last(after.client.handled), since)
      ensures e.seqNo in Numbers(rest)
    {
      assert e.seqNo in Numbers(ch.socket.queue);
    }
  }

  lemma {:induction false} HeadOrRest(message: Wire, rest: seq<nat>)
    ensures forall n :: n in NumberOf(message) + rest ==> n in rest || message.seqNo == Some(n)
  {
  }

  /** What the client handled last is the number just delivered, if it had one. */
  lemma {:induction false} DeliveredLast(ch: Channel, limits: Limits)
    requires Inv(ch, limits) && ch.socket.Open? && ch.socket.queue != []
    ensures
      var message, after := ch.socket.queue[0], Step(ch, limits, Delivering);
      && Last(after.client.handled) >= Last(ch.client.handled)
      && (message.seqNo.Some? ==> Last(after.client.handled) == message.seqNo.value)
  {
    DeliverKeepsInv(ch, limits);
    if ch.socket.queue[0].seqNo.Some? {
      assert Numbers(ch.socket.queue)[0] == ch.socket.queue[0].seqNo.value;
    }
  }

  /** While connected, delivering and broadcasting keep everything on its way, if replayable broadcasts are sent. */
  lemma {:induction false} StepKeepsComplete(ch: Channel, limits: Limits, event: Event, since: nat)
    requires Inv(ch, limits) && Complete(ch, since)
    requires event.Broadcasting? || event.Telling? || event.Delivering?
    requires event.Broadcasting? && IsReplayable(event.kind) ==> event.isSent
    ensures Complete(Step(ch, limits, event), since)
  {
    match event
    case Broadcasting(kind, now, isSent) =>
      BroadcastKeepsComplete(ch, limits, kind, now, isSent, since);
    case Telling(kinds) =>
      TellKeepsComplete(ch, kinds, since);
    case Delivering =>
      if ch.socket.queue != [] {
        DeliverKeepsComplete(ch, limits, since);
      }
    hide Inv, Complete, Broadcast, Receive;
  }

  /** An unsent replayable broadcast is neither handled nor on its way. */
  lemma {:induction false} UnsentIsMissing(ch: Channel, limits: Limits, kind: string, now: int, since: nat)
    requires Inv(ch, limits) && ch.socket.Open? && IsReplayable(kind) && since <= ch.log.lastSeq
    ensures !Complete(Broadcast(ch, limits, kind, now, false), since)
  {
    hide Numbers, Stamp, IsReplayable, Describes;
    var after, missed := Broadcast(ch, limits, kind, now, false), Entry(ch.log.lastSeq + 1, now, kind);
    assert after.history[|ch.history|] == missed;
    assert missed.seqNo !in Numbers(ch.socket.queue);
  }

  /** Nothing handled is forgotten, and nothing is skipped while everything missing is on its way. */
  lemma {:induction false} StepKeepsNoHole(ch: Channel, limits: Limits, event: Event, since: nat)
    requires Inv(ch, limits) && NoHole(ch, since)
    requires ch.socket.Open? ==> Complete(ch, since)
    ensures NoHole(Step(ch, limits, event), since)
  {
    if event.Delivering? && ch.socket.Open? && ch.socket.queue != [] {
      DeliverKeepsInv(ch, limits);
      var message := ch.socket.queue[0];
      if message.seqNo.Some? {
        NothingBefore(ch, since);
      }
    }
  }

  lemma {:induction false} NothingBefore(ch: Channel, since: nat)
    requires ch.socket.Open? && ch.socket.queue != [] && ch.socket.queue[0].seqNo.Some?
    requires RisingSeqs(Numbers(ch.socket.queue)) && Complete(ch, since)
    ensures forall e :: e in ch.history && e.seqNo > Later(Last(ch.client.handled), since) ==> e.seqNo >= ch.socket.queue[0].seqNo.value
  {
    var numbers := Numbers(ch.socket.queue);
    assert numbers[0] == ch.socket.queue[0].seqNo.value;
  }
}
