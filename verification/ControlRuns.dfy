/** Whole runs of the control channel: when no replayable broadcast is lost, and how one can be. */
module ControlRuns {
  import opened Options
  import opened ReplayLogModel
  import opened ControlChannel
  import opened ControlLosses

  /**
   A step that can lose nothing of what comes after `since`: replayable broadcasts go out on an open socket,
   and a connection is accepted either with a cursor above which none of it was dropped or when there is
   nothing to miss.
   */
  ghost predicate Careful(ch: Channel, limits: Limits, event: Event, since: nat) {
    && (event.Broadcasting? && ch.socket.Open? && IsReplayable(event.kind) ==> event.isSent)
    && (event.Accepting? && ch.socket.Connecting? ==>
      (ch.socket.since.Some? && !WouldMiss(ch, limits, event.now, since)) || NothingToMiss(ch, since))
  }

  function RunFrom(ch: Channel, limits: Limits, events: seq<Event>): Channel {
    if events == [] then ch else Step(RunFrom(ch, limits, events[..|events| - 1]), limits, events[|events| - 1])
  }

  ghost predicate CarefulRun(ch: Channel, limits: Limits, events: seq<Event>, since: nat) {
    events == [] || (
      && CarefulRun(ch, limits, events[..|events| - 1], since)
      && Careful(RunFrom(ch, limits, events[..|events| - 1]), limits, events[|events| - 1], since))
  }

  /** Every replayable broadcast after `since` has been handled or, on an open socket, is on its way. */
  ghost predicate NothingLost(ch: Channel, since: nat) {
    && NoHole(ch, since)
    && (ch.socket.Open? ==> Complete(ch, since))
  }

  /** From a moment at which nothing is lost, a step loses something iff it is careless. */
  lemma {:induction false} StepLosesNothingIff(ch: Channel, limits: Limits, event: Event, since: nat)
    requires Inv(ch, limits) && NothingLost(ch, since) && since <= ch.log.lastSeq
    ensures NothingLost(Step(ch, limits, event), since) <==> Careful(ch, limits, event, since)
  {
    StepKeepsNoHole(ch, limits, event, since);
    hide Inv, NoHole, Complete;
    match event
    case Broadcasting(kind, now, isSent) =>
      if ch.socket.Open? {
        if IsReplayable(kind) && !isSent {
          UnsentIsMissing(ch, limits, kind, now, since);
        } else {
          StepKeepsComplete(ch, limits, event, since);
        }
      }
    case Telling(kinds) =>
      if ch.socket.Open? {
        StepKeepsComplete(ch, limits, event, since);
      }
    case Dialling =>
    case Accepting(now, greetings) =>
      if ch.socket.Connecting? {
        AcceptCompleteIff(ch, limits, now, greetings, since);
      }
    case Delivering =>
      if ch.socket.Open? {
        StepKeepsComplete(ch, limits, event, since);
      }
    case Dropping =>
  }

  lemma {:induction false} NumbersOnlyGrow(ch: Channel, limits: Limits, event: Event)
    requires Inv(ch, limits)
    ensures Step(ch, limits, event).log.lastSeq >= ch.log.lastSeq
  {
    match event
    case Broadcasting(kind, now, isSent) => StampDescribes(ch.log, ch.history, limits, kind, now);
    case Telling(kinds) =>
    case Dialling =>
    case Accepting(now, greetings) => EvictDescribes(ch.log, ch.history, limits, now);
    case Delivering =>
    case Dropping =>
  }

  lemma {:induction false} StepsKeepInv(ch: Channel, limits: Limits, events: seq<Event>)
    requires Inv(ch, limits)
    ensures Inv(RunFrom(ch, limits, events), limits)
    ensures RunFrom(ch, limits, events).log.lastSeq >= ch.log.lastSeq
  {
    hide Inv, Step;
    if events != [] {
      var before := RunFrom(ch, limits, events[..|events| - 1]);
      StepsKeepInv(ch, limits, events[..|events| - 1]);
      StepKeepsInv(before, limits, events[|events| - 1]);
      NumbersOnlyGrow(before, limits, events[|events| - 1]);
    }
  }

  /**
   Over any run, however often the socket drops and reconnects, nothing replayable is lost all along iff every
   step is careful; the first careless step is where something is lost.
   */
  lemma {:induction false} NothingLostIff(ch: Channel, limits: Limits, events: seq<Event>, since: nat)
    requires Inv(ch, limits) && NothingLost(ch, since) && since <= ch.log.lastSeq
    ensures
      (forall n: nat :: n <= |events| ==> NothingLost(RunFrom(ch, limits, events[..n]), since)) <==>
      CarefulRun(ch, limits, events, since)
  {
    hide Inv, NothingLost, Careful, Step;
    if events == [] {
      assert events[..0] == [];
    } else {
      var before, last := events[..|events| - 1], events[|events| - 1];
      NothingLostIff(ch, limits, before, since);
      assert forall n: nat :: n < |events| ==> events[..n] == before[..n];
      assert before[..|before|] == before && events[..|events|] == events;
      StepsKeepInv(ch, limits, before);
      if NothingLost(RunFrom(ch, limits, before), since) {
        StepLosesNothingIff(RunFrom(ch, limits, before), limits, last, since);
      }
    }
  }

  /** Of what is still to be broadcast nothing is lost yet, so every moment is one to look on from. */
  lemma {:induction false} NothingLostYet(ch: Channel, limits: Limits)
    requires Inv(ch, limits)
    ensures NothingLost(ch, ch.log.lastSeq)
  {
    hide Numbers;
    assert Last(ch.client.handled) <= ch.log.lastSeq;
    assert forall e :: e in ch.history ==> e.seqNo <= ch.log.lastSeq;
  }

  /**
   From any moment of any run on, every replayable broadcast made from then on is handled or on its way all
   along iff every step is careful.
   */
  lemma {:induction false} NothingLostFromNowIff(limits: Limits, before: seq<Event>, events: seq<Event>)
    ensures
      var now := Run(limits, before);
      (forall n: nat :: n <= |events| ==> NothingLost(RunFrom(now, limits, events[..n]), now.log.lastSeq)) <==>
      CarefulRun(now, limits, events, now.log.lastSeq)
  {
    RunKeepsInv(limits, before);
    NothingLostYet(Run(limits, before), limits);
    NothingLostIff(Run(limits, before), limits, events, Run(limits, before).log.lastSeq);
  }

  /** Once a careful run has drained its socket, the client has handled every replayable broadcast since it began. */
  lemma {:induction false} DrainedMeansHandled(ch: Channel, limits: Limits, events: seq<Event>, since: nat)
    requires Inv(ch, limits) && NothingLost(ch, since) && since <= ch.log.lastSeq
    requires CarefulRun(ch, limits, events, since)
    ensures
      var end := RunFrom(ch, limits, events);
      end.socket == Open([]) ==>
        forall e :: e in end.history && e.seqNo > since ==> e.seqNo in end.client.handled
  {
    NothingLostIff(ch, limits, events, since);
    assert events[..|events|] == events;
    assert Numbers([]) == [];
  }

  /** So from any moment of any run, a careful run that drains has handled everything replayable made from then on. */
  lemma {:induction false} HandledFromNow(limits: Limits, before: seq<Event>, events: seq<Event>)
    requires CarefulRun(Run(limits, before), limits, events, Run(limits, before).log.lastSeq)
    ensures
      var now := Run(limits, before);
      var end := RunFrom(now, limits, events);
      end.socket == Open([]) ==>
        forall e :: e in end.history && e.seqNo > now.log.lastSeq ==> e.seqNo in end.client.handled
  {
    var now := Run(limits, before);
    RunKeepsInv(limits, before);
    NothingLostYet(now, limits);
    DrainedMeansHandled(now, limits, events, now.log.lastSeq);
  }

  // ---------------------------------------------------------------- a reconnect that recovers

  /** A numbered message moves the cursor to its number, an unnumbered snapshot sets it to zero, and no other moves it. */
  lemma {:induction false} CursorAfter(ch: Channel, limits: Limits)
    requires Inv(ch, limits) && ch.socket.Open? && ch.socket.queue != []
    ensures
      var message, after := ch.socket.queue[0], Step(ch, limits, Delivering);
      && after.socket == Open(ch.socket.queue[1..])
      && after.client.cursor == match message.seqNo
         case Some(n) => n
         case None => if message.kind == "snapshot" then 0 else ch.client.cursor
  {
    if ch.socket.queue[0].seqNo.Some? {
      assert Numbers(ch.socket.queue)[0] == ch.socket.queue[0].seqNo.value;
    }
  }

  /**
   A client that reconnects with a cursor while the server still holds everything after it is sent a snapshot and
   then everything it missed.
   */
  lemma {:induction false} ReconnectRecovers(ch: Channel, limits: Limits, now: int, greetings: seq<string>)
    requires Inv(ch, limits) && ch.socket.Closed? && ch.client.cursor > 0
    requires forall e :: e in ch.history && e.seqNo > ch.client.cursor ==> e in Evict(ch.log, limits, now).ring
    ensures
      var after := Step(Step(ch, limits, Dialling), limits, Accepting(now, greetings));
      && after.client == ch.client && Complete(after, 0)
      && after.socket.queue != [] && after.socket.queue[0] == Wire("snapshot", None)
  {
    hide Evict, Describes, Complete, Numbers, Between, Greeting, AnswerTo, Inv;
    var dialled := Step(ch, limits, Dialling);
    assert dialled == ch.(socket := Connecting(Some(ch.client.cursor)));
    StepKeepsInv(ch, limits, Dialling);
    AcceptCompleteIff(dialled, limits, now, greetings, 0);
    InvDescribes(ch, limits);
    EvictDescribes(ch.log, ch.history, limits, now);
    NothingDropped(Evict(ch.log, limits, now), ch.history, ch.client.cursor);
    SnapshotFirst(greetings, AnswerTo(Evict(ch.log, limits, now), Some(ch.client.cursor)));
  }

  lemma {:induction false} InvDescribes(ch: Channel, limits: Limits)
    requires Inv(ch, limits)
    ensures Describes(ch.log, ch.history)
  {
  }

  lemma {:induction false} SnapshotFirst(kinds: seq<string>, answer: Answer)
    ensures Greeting(kinds, answer) != [] && Greeting(kinds, answer)[0] == Wire("snapshot", None)
  {
  }

  lemma {:induction false} LastDroppedIsNotHeld(log: Log, history: seq<Entry>)
    requires Describes(log, history) && |log.ring| < |history|
    ensures history[|history| - |log.ring| - 1] !in log.ring
  {
    var dropped := |history| - |log.ring|;
    forall k | 0 <= k < |log.ring|
      ensures log.ring[k] != history[dropped - 1]
    {
      assert log.ring[k] == history[dropped + k];
    }
  }

  lemma {:induction false} NothingDropped(log: Log, history: seq<Entry>, cursor: nat)
    requires Describes(log, history) && forall e :: e in history && e.seqNo > cursor ==> e in log.ring
    ensures !AnswerTo(log, Some(cursor)).evicted
  {
    if |log.ring| < |history| {
      LastDroppedIsNotHeld(log, history);
    }
  }

  // ---------------------------------------------------------------- the cursor a snapshot sets back

  /** The channel after a connection that broke right after its snapshot was delivered. */
  function CutShort(ch: Channel, limits: Limits, now: int, greetings: seq<string>): Channel {
    var accepted := Step(Step(ch, limits, Dialling), limits, Accepting(now, greetings));
    Step(Step(accepted, limits, Delivering), limits, Dropping)
  }

  /** Reconnecting after missing one broadcast. */
  function MissOne(ch: Channel, limits: Limits, kind: string, now: int, greetings: seq<string>): Channel {
    var missed := Step(ch, limits, Broadcasting(kind, now, false));
    Step(Step(missed, limits, Dialling), limits, Accepting(now, greetings))
  }

  /**
   The unnumbered snapshot of a reconnect sets the cursor back to zero, so a connection that breaks right
   after it is followed by one that asks for no replay: whatever is broadcast in between is never queued,
   although the server still holds it.
   */
  lemma {:induction false} SnapshotLosesReplay(
      ch: Channel, limits: Limits, kind: string, now: int, greetings: seq<string>)
    requires Inv(ch, limits) && ch.socket.Closed?
    requires IsReplayable(kind) && limits.maxEntries > 0 && limits.maxAgeMs >= 0
    ensures
      var cut := CutShort(ch, limits, now, greetings);
      && cut.client == Client(0, ch.client.handled)
    ensures
      var end := MissOne(CutShort(ch, limits, now, greetings), limits, kind, now, greetings);
      var missed := Entry(ch.log.lastSeq + 1, now, kind);
      && end.socket.Open? && Numbers(end.socket.queue) == []
      && end.client.handled == ch.client.handled
      && missed in end.history && missed in end.log.ring
      && !NothingLost(end, ch.log.lastSeq)
  {
    hide CutShort, MissOne, NothingLost, Inv;
    CutShortForgets(ch, limits, now, greetings);
    NoReplayWithoutCursor(CutShort(ch, limits, now, greetings), limits, kind, now, greetings);
  }

  /** A client whose cursor is zero does not get what it missed. */
  lemma {:induction false} NoReplayWithoutCursor(
      ch: Channel, limits: Limits, kind: string, now: int, greetings: seq<string>)
    requires ch.socket.Closed? && ch.client.cursor == 0 && Last(ch.client.handled) <= ch.log.lastSeq
    requires IsReplayable(kind) && limits.maxEntries > 0 && limits.maxAgeMs >= 0
    ensures
      var end := MissOne(ch, limits, kind, now, greetings);
      var missed := Entry(ch.log.lastSeq + 1, now, kind);
      && end.socket.Open? && Numbers(end.socket.queue) == []
      && end.client == ch.client
      && missed in end.history && missed in end.log.ring
      && !NothingLost(end, ch.log.lastSeq)
  {
    hide Evict, Greeting, Numbers, NoHole;
    GreetingNumbers(greetings, Answer([], false));
    assert SeqNos([]) == [];
    NewestIsHeld(ch.log, limits, kind, now);
    var end := MissOne(ch, limits, kind, now, greetings);
    var missed := Entry(ch.log.lastSeq + 1, now, kind);
    assert missed in end.history by {
      assert end.history == ch.history + [missed];
      assert end.history[|ch.history|] == missed;
    }
    assert missed.seqNo !in Numbers(end.socket.queue);
  }

  lemma {:induction false} CutShortForgets(ch: Channel, limits: Limits, now: int, greetings: seq<string>)
    requires Inv(ch, limits) && ch.socket.Closed?
    ensures
      var cut := CutShort(ch, limits, now, greetings);
      && cut.client == Client(0, ch.client.handled) && cut.socket.Closed?
      && cut.history == ch.history && cut.log.lastSeq == ch.log.lastSeq
    ensures Last(ch.client.handled) <= ch.log.lastSeq
  {
    hide Replays, Unnumbered, AnswerTo, Evict;
    EvictDescribes(ch.log, ch.history, limits, now);
    var accepted := Accept(ch.(socket := Connecting(SinceOf(ch.client))), limits, now, greetings);
    assert accepted.socket.queue[0] == Wire("snapshot", None);
  }

  lemma {:induction false} NewestIsHeld(log: Log, limits: Limits, kind: string, now: int)
    requires IsReplayable(kind) && limits.maxEntries > 0 && limits.maxAgeMs >= 0
    ensures Entry(log.lastSeq + 1, now, kind) in Stamp(log, limits, kind, now).ring
  {
    hide IsReplayable, Evict;
    var entry := Entry(log.lastSeq + 1, now, kind);
    EvictKeepsNewest(Log(log.ring + [entry], log.lastSeq + 1, log.evictedUpTo), limits, now);
  }

  lemma {:induction false} EvictKeepsNewest(log: Log, limits: Limits, now: int)
    requires log.ring != [] && log.ring[|log.ring| - 1].ts == now && limits.maxEntries > 0 && limits.maxAgeMs >= 0
    ensures log.ring[|log.ring| - 1] in Evict(log, limits, now).ring
  {
    NewestIsYoung(log.ring, limits, now);
    hide StaleCount;
    var ring := Evict(log, limits, now).ring;
    assert ring[|ring| - 1] == log.ring[|log.ring| - 1];
  }

  lemma {:induction false} NewestIsYoung(ring: seq<Entry>, limits: Limits, now: int)
    requires ring != [] && ring[|ring| - 1].ts == now && limits.maxAgeMs >= 0
    ensures StaleCount(ring, limits, now) < |ring|
  {
    if now - ring[0].ts > limits.maxAgeMs {
      assert |ring| > 1;
      NewestIsYoung(ring[1..], limits, now);
    }
  }
}
