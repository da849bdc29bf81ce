/** What every interleaving of checks, answers, channel changes and stops keeps. */
module UpdateLaneLaws {
  import opened Options
  import opened UpdateLaneModel

  // ---------------------------------------------------------------- in every run

  /** The lane holds a check exactly while one is outstanding, there is never a second, and a refresh is owed only then. */
  ghost predicate OneCheck(lane: Lane) {
    && |lane.checks| == (if lane.inFlight then 1 else 0)
    && (lane.pendingChannelRefresh ==> lane.inFlight && !lane.isStopped && lane.checks[0].isAborted)
  }

  lemma {:induction false} StepKeepsOneCheck(lane: Lane, signature: Signature, event: Event)
    requires OneCheck(lane)
    ensures OneCheck(Step(lane, signature, event))
  {
  }

  lemma {:induction false} AtMostOneCheck(channel: string, signature: Signature, events: seq<Event>)
    ensures OneCheck(Run(Initial(channel), signature, events))
  {
    if events != [] {
      AtMostOneCheck(channel, signature, events[..|events| - 1]);
      StepKeepsOneCheck(Run(Initial(channel), signature, events[..|events| - 1]), signature, events[|events| - 1]);
    }
  }

  lemma {:induction false} StoppedStepIsSilent(lane: Lane, signature: Signature, event: Event)
    requires lane.isStopped && !lane.pendingChannelRefresh
    ensures
      var after := Step(lane, signature, event);
      && after.isStopped && !after.pendingChannelRefresh
      && after.sent == lane.sent && after.recorded == lane.recorded && after.lastChannel == lane.lastChannel
  {
  }

  /** Once stopped, nothing is recorded or broadcast again, and no refresh is owed. */
  lemma {:induction false} StoppedIsSilent(lane: Lane, signature: Signature, events: seq<Event>)
    requires lane.isStopped && !lane.pendingChannelRefresh
    ensures
      var after := Run(lane, signature, events);
      && after.isStopped && !after.pendingChannelRefresh
      && after.sent == lane.sent && after.recorded == lane.recorded && after.lastChannel == lane.lastChannel
  {
    hide Step;
    if events != [] {
      StoppedIsSilent(lane, signature, events[..|events| - 1]);
      StoppedStepIsSilent(Run(lane, signature, events[..|events| - 1]), signature, events[|events| - 1]);
    }
  }

  /** Nothing is broadcast after a stop, whatever led to it and whatever follows. */
  lemma {:induction false} NothingAfterStop(channel: string, signature: Signature, events: seq<Event>, rest: seq<Event>)
    ensures
      var atStop := Stop(Run(Initial(channel), signature, events));
      Run(atStop, signature, rest).sent == Run(Initial(channel), signature, events).sent
  {
    StoppedIsSilent(Stop(Run(Initial(channel), signature, events)), signature, rest);
  }

  // ---------------------------------------------------------------- the channel of what is recorded

  /** The checker answers for the channel it was asked for. */
  ghost predicate Proper(lane: Lane, event: Event) {
    event.Answering? && event.i < |lane.checks| && event.result.Some? ==>
      event.result.value.channel == lane.checks[event.i].channel
  }

  ghost predicate ProperRun(lane: Lane, signature: Signature, events: seq<Event>) {
    events == [] || (
      && ProperRun(lane, signature, events[..|events| - 1])
      && Proper(Run(lane, signature, events[..|events| - 1]), events[|events| - 1]))
  }

  ghost predicate Inv(lane: Lane) {
    && OneCheck(lane)
    && (lane.recorded.Some? ==> lane.recorded.value.channel == lane.lastChannel)
    && (!lane.isStopped ==> lane.lastChannel == lane.configured)
    && (!lane.isStopped && lane.inFlight && lane.checks[0].channel != lane.configured ==> lane.pendingChannelRefresh)
    && forall k :: 0 <= k < |lane.sent| ==> lane.sent[k].status.channel == lane.sent[k].configured
  }

  lemma {:induction false} StepKeepsInv(lane: Lane, signature: Signature, event: Event)
    requires Inv(lane) && Proper(lane, event)
    ensures Inv(Step(lane, signature, event))
  {
    StepKeepsOneCheck(lane, signature, event);
    match event
    case Checking(now) =>
    case Answering(i, result, journal) =>
    case Finishing(i, now) =>
    case Reconfiguring(channel, now) =>
    case Refreshing(journal) =>
    case Stopping =>
  }

  lemma {:induction false} RunKeepsInv(channel: string, signature: Signature, events: seq<Event>)
    requires ProperRun(Initial(channel), signature, events)
    ensures Inv(Run(Initial(channel), signature, events))
  {
    if events != [] {
      RunKeepsInv(channel, signature, events[..|events| - 1]);
      StepKeepsInv(Run(Initial(channel), signature, events[..|events| - 1]), signature, events[|events| - 1]);
    }
  }

  /** The channel configured when the lane was first stopped. */
  function StoppedAt(lane: Lane, signature: Signature, events: seq<Event>): Option<string> {
    if events == [] then None
    else
      var before := StoppedAt(lane, signature, events[..|events| - 1]);
      if before.None? && events[|events| - 1].Stopping?
      then Some(Run(lane, signature, events[..|events| - 1]).configured) else before
  }

  lemma {:induction false} StoppedIff(channel: string, signature: Signature, events: seq<Event>)
    requires ProperRun(Initial(channel), signature, events)
    ensures
      var lane, stoppedAt := Run(Initial(channel), signature, events), StoppedAt(Initial(channel), signature, events);
      && (lane.isStopped <==> stoppedAt.Some?)
      && (lane.isStopped ==> lane.lastChannel == stoppedAt.value)
  {
    if events != [] {
      var before, last := events[..|events| - 1], events[|events| - 1];
      var lane := Run(Initial(channel), signature, before);
      RunKeepsInv(channel, signature, before);
      StoppedIff(channel, signature, before);
      KeepsLastChannel(lane, signature, last);
    }
  }

  lemma {:induction false} KeepsLastChannel(lane: Lane, signature: Signature, event: Event)
    ensures
      var after := Step(lane, signature, event);
      && after.isStopped == (lane.isStopped || event.Stopping?)
      && (after.isStopped ==> after.lastChannel == lane.lastChannel)
  {
  }

  /**
   A recorded status has the configured channel iff the lane is not stopped or the channel configured now is
   the one configured at the stop. A running check for another channel is always followed by a refresh.
   */
  lemma {:induction false} RecordedIsConfigured(channel: string, signature: Signature, events: seq<Event>)
    requires ProperRun(Initial(channel), signature, events)
    ensures
      var lane, stoppedAt := Run(Initial(channel), signature, events), StoppedAt(Initial(channel), signature, events);
      && OneCheck(lane)
      && (lane.recorded.Some? ==>
        (lane.recorded.value.channel == lane.configured <==> stoppedAt.None? || stoppedAt.value == lane.configured))
      && (!lane.isStopped && lane.inFlight && lane.checks[0].channel != lane.configured ==> lane.pendingChannelRefresh)
  {
    hide Step;
    RunKeepsInv(channel, signature, events);
    StoppedIff(channel, signature, events);
  }

  /** Whatever is broadcast has the channel configured when it is broadcast. */
  lemma {:induction false} SentIsConfigured(channel: string, signature: Signature, events: seq<Event>, k: nat)
    requires ProperRun(Initial(channel), signature, events)
    requires k < |Run(Initial(channel), signature, events).sent|
    ensures
      var sent := Run(Initial(channel), signature, events).sent[k];
      sent.status.channel == sent.configured
  {
    RunKeepsInv(channel, signature, events);
  }

  /** In every run, when a check finishes that a change overtook, one for the configured channel starts, unless stopped. */
  lemma {:induction false} RefreshFollows(channel: string, signature: Signature, events: seq<Event>, now: int)
    requires ProperRun(Initial(channel), signature, events)
    requires Run(Initial(channel), signature, events).inFlight
    ensures
      var lane := Run(Initial(channel), signature, events);
      var after := Step(lane, signature, Finishing(0, now));
      && OneCheck(lane)
      && (lane.checks[0].isAnswered ==>
        && after.checks == (if lane.pendingChannelRefresh then [Check(lane.configured, now, false, false)] else [])
        && !after.pendingChannelRefresh
        && (!lane.isStopped && lane.checks[0].channel != lane.configured ==> after.inFlight))
  {
    RunKeepsInv(channel, signature, events);
    hide Run;
    var lane := Run(Initial(channel), signature, events);
    assert lane.checks == [lane.checks[0]];
  }

  /** In every run, a change of channel right after a stop leaves the recorded status behind. */
  lemma {:induction false} StopLeavesStatus(
      channel: string, signature: Signature, events: seq<Event>, other: string, now: int)
    requires ProperRun(Initial(channel), signature, events)
    ensures
      var lane := Run(Initial(channel), signature, events);
      var after := Step(Step(lane, signature, Stopping), signature, Reconfiguring(other, now));
      !lane.isStopped && lane.recorded.Some? && other != lane.configured ==>
        after.recorded.Some? && after.recorded.value.channel != after.configured
  {
    RunKeepsInv(channel, signature, events);
  }

  // ---------------------------------------------------------------- what is recorded and broadcast

  /** A change of channel is acted on at once: nothing is recorded, and a check of the new channel is running or owed. */
  lemma {:induction false} ChangeIsChecked(
      channel: string, signature: Signature, events: seq<Event>, other: string, now: int)
    requires ProperRun(Initial(channel), signature, events)
    requires !Run(Initial(channel), signature, events).isStopped
    ensures
      var lane := Run(Initial(channel), signature, events);
      var after := Step(lane, signature, Reconfiguring(other, now));
      && after.configured == other && after.sent == lane.sent
      && (other == lane.configured ==> after == lane)
      && (other != lane.configured ==>
        && after.recorded.None? && after.lastSignature.None? && after.inFlight && |after.checks| == 1
        && if lane.inFlight then after.pendingChannelRefresh && after.checks[0].isAborted
           else after.checks == [Check(other, now, false, false)])
  {
    RunKeepsInv(channel, signature, events);
    hide Run;
  }

  /** A stop aborts the check that is running and forgets the refresh that is owed, and nothing else. */
  lemma {:induction false} StopAborts(channel: string, signature: Signature, events: seq<Event>)
    requires ProperRun(Initial(channel), signature, events)
    ensures
      var lane := Run(Initial(channel), signature, events);
      var after := Step(lane, signature, Stopping);
      && after == lane.(isStopped := true, pendingChannelRefresh := false, checks := after.checks)
      && |after.checks| == |lane.checks| == (if lane.inFlight then 1 else 0)
      && (lane.inFlight ==> after.checks == [lane.checks[0].(isAborted := true)])
  {
    RunKeepsInv(channel, signature, events);
    hide Run;
  }

  /** A caller gets a check of the configured channel: the one that is running, or a new one. */
  lemma {:induction false} CheckIsRunning(channel: string, signature: Signature, events: seq<Event>, now: int)
    requires ProperRun(Initial(channel), signature, events)
    ensures
      var lane := Run(Initial(channel), signature, events);
      var after := Step(lane, signature, Checking(now));
      && after.sent == lane.sent && after.recorded == lane.recorded && after.inFlight
      && after.checks == if lane.inFlight then lane.checks else [Check(lane.configured, now, false, false)]
  {
    RunKeepsInv(channel, signature, events);
    hide Run;
  }

  /** The status says what the check found, or that it failed, and when it was begun. */
  predicate Reports(status: Status, check: Check, result: Option<Status>) {
    && status.lastCheckAt == check.checkedAt
    && (result.Some? ==> status.channel == result.value.channel && status.details == result.value.details)
    && (result.None? ==> status.channel == check.channel && status.details == "update-check-failed")
  }

  /**
   The answer of the running check is recorded and broadcast at once iff the lane is not stopped and its channel
   is still the one configured; an answer that came too late changes neither.
   */
  lemma {:induction false} AnswerIsToldIff(
      channel: string, signature: Signature, events: seq<Event>, result: Option<Status>, journal: string)
    requires ProperRun(Initial(channel), signature, events)
    requires Run(Initial(channel), signature, events).inFlight
    ensures
      var lane := Run(Initial(channel), signature, events);
      var after := Step(lane, signature, Answering(0, result, journal));
      && |lane.checks| == 1
      && (!lane.checks[0].isAnswered ==>
        && after.checks == [lane.checks[0].(isAnswered := true)]
        && if lane.isStopped || lane.checks[0].channel != lane.configured
           then after.sent == lane.sent && after.recorded == lane.recorded
           else
             && |after.sent| == |lane.sent| + 1 && after.sent[..|lane.sent|] == lane.sent
             && after.recorded == Some(after.sent[|lane.sent|].status)
             && after.sent[|lane.sent|].configured == lane.configured && after.sent[|lane.sent|].journal == journal
             && Reports(after.sent[|lane.sent|].status, lane.checks[0], result))
  {
    RunKeepsInv(channel, signature, events);
    hide Run;
  }

  /** What is recorded was broadcast, and the signature kept is that of the last broadcast, since the channel last changed. */
  ghost predicate Remembers(lane: Lane, signature: Signature) {
    && (lane.recorded.Some? ==> lane.sent != [] && lane.lastSignature.Some? && lane.sent[|lane.sent| - 1].status == lane.recorded.value)
    && (lane.lastSignature.Some? ==>
      && lane.sent != []
      && var last := lane.sent[|lane.sent| - 1];
      lane.lastSignature.value == signature(last.status, last.configured, last.journal))
  }

  lemma {:induction false} StepRemembers(lane: Lane, signature: Signature, event: Event)
    requires Remembers(lane, signature)
    ensures Remembers(Step(lane, signature, event), signature)
  {
  }

  lemma {:induction false} RunRemembers(channel: string, signature: Signature, events: seq<Event>)
    ensures Remembers(Run(Initial(channel), signature, events), signature)
  {
    hide Step;
    if events != [] {
      RunRemembers(channel, signature, events[..|events| - 1]);
      StepRemembers(Run(Initial(channel), signature, events[..|events| - 1]), signature, events[|events| - 1]);
    }
  }

  /**
   In every run a refresh broadcasts iff the lane is not stopped, something is recorded, and it would now be told
   with another signature than it was last; then it broadcasts what is recorded.
   */
  lemma {:induction false} RefreshTellsIff(channel: string, signature: Signature, events: seq<Event>, journal: string)
    ensures
      var lane := Run(Initial(channel), signature, events);
      var after := Step(lane, signature, Refreshing(journal));
      && after.recorded == lane.recorded && after.checks == lane.checks
      && (lane.recorded.Some? ==> lane.sent != [])
      && after.sent ==
        if !lane.isStopped && lane.recorded.Some?
          && var last := lane.sent[|lane.sent| - 1];
          signature(lane.recorded.value, lane.configured, journal) != signature(last.status, last.configured, last.journal)
        then lane.sent + [Sent(lane.recorded.value, lane.configured, journal)] else lane.sent
  {
    RunRemembers(channel, signature, events);
    hide Run;
  }
}
