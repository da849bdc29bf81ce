/**
 The update-check lane: one check at a time, a refresh owed when the channel changes under a running check,
 and silence once stopped. A check is a chain of callbacks that others can interleave with.
 */
module UpdateLaneModel {
  import opened Options

  datatype Status = Status(channel: string, lastCheckAt: int, details: string)

  /** A check under way; `isAnswered` once its result callback has run, before its final one has. */
  datatype Check = Check(channel: string, checkedAt: int, isAborted: bool, isAnswered: bool)

  /** A status broadcast, with the channel configured and the update journal when it was. */
  datatype Sent = Sent(status: Status, configured: string, journal: string)

  datatype Lane = Lane(
    configured: string, recorded: Option<Status>,
    /** Whether the lane holds a check it will hand to the next caller. */
    inFlight: bool,
    /** The callback chains still outstanding, whatever the lane holds. */
    checks: seq<Check>,
    lastChannel: string, pendingChannelRefresh: bool, isStopped: bool, lastSignature: Option<string>, sent: seq<Sent>)

  /** What of a status, with the configured channel and the update journal, decides whether it is worth sending again. */
  type Signature = (Status, string, string) -> string

  function Initial(channel: string): Lane {
    Lane(channel, None, false, [], channel, false, false, None, [])
  }

  function Broadcast(lane: Lane, signature: Signature, journal: string, status: Status): Lane {
    lane.(lastSignature := Some(signature(status, lane.configured, journal)),
          sent := lane.sent + [Sent(status, lane.configured, journal)])
  }

  function RunCheck(lane: Lane, now: int): Lane {
    if lane.inFlight then lane
    else lane.(inFlight := true, checks := lane.checks + [Check(lane.configured, now, false, false)])
  }

  /** The result callback of check `i`; no result is a failed check. */
  function Answer(lane: Lane, signature: Signature, journal: string, i: nat, result: Option<Status>): Lane
    requires i < |lane.checks| && !lane.checks[i].isAnswered
  {
    var check := lane.checks[i];
    var answered := lane.(checks := lane.checks[i := check.(isAnswered := true)]);
    if lane.isStopped || check.channel != lane.configured then answered
    else
      var status := if result.Some? then result.value.(lastCheckAt := check.checkedAt)
        else Status(check.channel, check.checkedAt, "update-check-failed");
      Broadcast(answered.(recorded := Some(status)), signature, journal, status)
  }

  /** The final callback of check `i`. */
  function Finish(lane: Lane, i: nat, now: int): Lane
    requires i < |lane.checks| && lane.checks[i].isAnswered
  {
    var done := lane.(checks := lane.checks[..i] + lane.checks[i + 1..], inFlight := false);
    if !done.pendingChannelRefresh then done
    else
      var owed := done.(pendingChannelRefresh := false);
      if owed.isStopped then owed else RunCheck(owed, now)
  }

  function Abort(checks: seq<Check>): seq<Check> {
    if checks == [] then [] else checks[..|checks| - 1] + [checks[|checks| - 1].(isAborted := true)]
  }

  function ApplySettings(lane: Lane, now: int): Lane {
    if lane.isStopped || lane.configured == lane.lastChannel then lane
    else
      var changed := lane.(lastChannel := lane.configured, recorded := None, lastSignature := None);
      if changed.inFlight then changed.(pendingChannelRefresh := true, checks := Abort(changed.checks))
      else RunCheck(changed, now)
  }

  function Refresh(lane: Lane, signature: Signature, journal: string): Lane {
    if lane.isStopped || lane.recorded.None? then lane
    else if lane.lastSignature == Some(signature(lane.recorded.value, lane.configured, journal)) then lane
    else Broadcast(lane, signature, journal, lane.recorded.value)
  }

  function Stop(lane: Lane): Lane {
    lane.(isStopped := true, pendingChannelRefresh := false,
          checks := if lane.inFlight then Abort(lane.checks) else lane.checks)
  }

  datatype Event =
    | Checking(now: int)
    | Answering(i: nat, result: Option<Status>, journal: string)
    | Finishing(i: nat, now: int)
    /** The configuration takes new settings, and the lane is told in the same call. */
    | Reconfiguring(channel: string, now: int)
    | Refreshing(journal: string)
    | Stopping

  function Step(lane: Lane, signature: Signature, event: Event): Lane {
    match event
    case Checking(now) => RunCheck(lane, now)
    case Answering(i, result, journal) =>
      if i < |lane.checks| && !lane.checks[i].isAnswered then Answer(lane, signature, journal, i, result) else lane
    case Finishing(i, now) => if i < |lane.checks| && lane.checks[i].isAnswered then Finish(lane, i, now) else lane
    case Reconfiguring(channel, now) => ApplySettings(lane.(configured := channel), now)
    case Refreshing(journal) => Refresh(lane, signature, journal)
    case Stopping => Stop(lane)
  }

  function Run(lane: Lane, signature: Signature, events: seq<Event>): Lane {
    if events == [] then lane
    else Step(Run(lane, signature, events[..|events| - 1]), signature, events[|events| - 1])
  }
}
