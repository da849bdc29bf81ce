/** The update-check lane, updated in place by its callers and by the callbacks of its checks. */
module UpdateLanes {
  import opened Options
  import opened UpdateLaneModel

  class UpdateLane {
    const signature: Signature
    /** The channel of the configuration the lane shares with the rest of the server. */
    var configured: string
    var recordedStatus: Option<Status>
    var inFlight: bool
    var checks: seq<Check>
    var lastChannel: string
    var pendingChannelRefresh: bool
    var stopped: bool
    var lastLaneSignature: Option<string>
    var sent: seq<Sent>

    ghost function Value(): Lane
      reads this
    {
      Lane(configured, recordedStatus, inFlight, checks, lastChannel, pendingChannelRefresh, stopped, lastLaneSignature, sent)
    }

    constructor (channel: string, signature: Signature)
      ensures Value() == Initial(channel) && this.signature == signature
    {
      this.signature := signature;
      configured, lastChannel := channel, channel;
      recordedStatus, inFlight, checks := None, false, [];
      pendingChannelRefresh, stopped, lastLaneSignature, sent := false, false, None, [];
    }

    method BroadcastStatus(status: Status, journal: string)
      modifies this`lastLaneSignature, this`sent
      ensures Value() == Broadcast(old(Value()), signature, journal, status)
    {
      lastLaneSignature := Some(signature(status, configured, journal));
      sent := sent + [Sent(status, configured, journal)];
    }

    method RefreshApplyAvailability(journal: string)
      modifies this`lastLaneSignature, this`sent
      ensures Value() == Refresh(old(Value()), signature, journal)
    {
      if stopped || recordedStatus.None? {
        return;
      }
      if Some(signature(recordedStatus.value, configured, journal)) == lastLaneSignature {
        return;
      }
      BroadcastStatus(recordedStatus.value, journal);
    }

    method RunCheck(now: int)
      modifies this`inFlight, this`checks
      ensures Value() == UpdateLaneModel.RunCheck(old(Value()), now)
    {
      if inFlight {
        return;
      }
      checks := checks + [Check(configured, now, false, false)];
      inFlight := true;
    }

    /** The result callback of a check; an aborted or failed one has no result. */
    method OnResult(i: nat, result: Option<Status>, journal: string)
      requires i < |checks| && !checks[i].isAnswered
      modifies this`checks, this`recordedStatus, this`lastLaneSignature, this`sent
      ensures Value() == Answer(old(Value()), signature, journal, i, result)
    {
      var check := checks[i];
      checks := checks[i := check.(isAnswered := true)];
      if stopped || check.channel != configured {
        return;
      }
      RecordStatus(result, check, journal);
    }

    method RecordStatus(result: Option<Status>, check: Check, journal: string)
      modifies this`recordedStatus, this`lastLaneSignature, this`sent
      ensures
        var status := if result.Some? then result.value.(lastCheckAt := check.checkedAt)
          else Status(check.channel, check.checkedAt, "update-check-failed");
        Value() == Broadcast(old(Value()).(recorded := Some(status)), signature, journal, status)
    {
      var status := if result.Some? then result.value.(lastCheckAt := check.checkedAt)
        else Status(check.channel, check.checkedAt, "update-check-failed");
      recordedStatus := Some(status);
      BroadcastStatus(status, journal);
    }

    /** The final callback of a check. */
    method OnFinally(i: nat, now: int)
      requires i < |checks| && checks[i].isAnswered
      modifies this`checks, this`inFlight, this`pendingChannelRefresh
      ensures Value() == Finish(old(Value()), i, now)
    {
      checks := checks[..i] + checks[i + 1..];
      inFlight := false;
      if !pendingChannelRefresh {
        return;
      }
      pendingChannelRefresh := false;
      if stopped {
        return;
      }
      RunCheck(now);
    }

    method ApplySettings(now: int)
      modifies this
      ensures Value() == UpdateLaneModel.ApplySettings(old(Value()), now)
    {
      if stopped || configured == lastChannel {
        return;
      }
      lastChannel := configured;
      recordedStatus, lastLaneSignature := None, None;
      if inFlight {
        pendingChannelRefresh := true;
        checks := Abort(checks);
        return;
      }
      RunCheck(now);
    }

    method Stop()
      modifies this`stopped, this`pendingChannelRefresh, this`checks
      ensures Value() == UpdateLaneModel.Stop(old(Value()))
    {
      stopped := true;
      pendingChannelRefresh := false;
      if inFlight {
        checks := Abort(checks);
      }
    }
  }
}
