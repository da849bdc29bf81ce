/** The status merger of one session, updated in place. */
module StatusSources {
  import opened Options
  import opened StatusModel

  class StatusSource {
    const windows: Windows
    /** The deadline of the pending ready timer, if it is armed. */
    var pendingReadyTimer: Option<nat>
    var pendingReadySource: Option<string>
    var pendingReadyConfidence: Option<string>
    var pendingReadyTs: Option<int>
    var last: Option<Signal>
    var isDestroyed: bool
    /** The clock the merger runs by. */
    var now: nat
    /** What was ingested and emitted, in order. */
    var log: seq<Mark>

    /** The details of a pending `ready` are kept exactly while its timer is armed. */
    ghost predicate Valid()
      reads this`pendingReadyTimer, this`pendingReadySource, this`pendingReadyConfidence, this`pendingReadyTs
    {
      && (pendingReadyTimer.Some? <==> pendingReadyConfidence.Some?)
      && (pendingReadyTimer.Some? <==> pendingReadyTs.Some?)
      && (pendingReadyTimer.None? ==> pendingReadySource.None?)
    }

    ghost function PendingReady(): Option<Pending>
      requires Valid()
      reads this`pendingReadyTimer, this`pendingReadySource, this`pendingReadyConfidence, this`pendingReadyTs
    {
      if pendingReadyTimer.None? then None
      else Some(Pending(pendingReadySource, pendingReadyConfidence.value, pendingReadyTs.value, pendingReadyTimer.value))
    }

    ghost function Value(): State
      requires Valid()
      reads this
    {
      State(PendingReady(), last, now, isDestroyed, log)
    }

    constructor (windows: Windows)
      ensures Valid() && Value() == FRESH && this.windows == windows
    {
      this.windows := windows;
      pendingReadyTimer, pendingReadySource, pendingReadyConfidence, pendingReadyTs := None, None, None, None;
      last, isDestroyed, now, log := None, false, 0, [];
    }

    method Ingest(raw: Raw)
      requires Valid()
      modifies this
      ensures Valid() && Value() == StatusModel.Ingest(old(Value()), raw, windows)
    {
      if isDestroyed || raw.signal == "" {
        return;
      }
      var got := Fill(raw, now);
      log := log + [Ingested(got, now)];
      if got.signal == "unknown" {
        log := log + [Meta(got, now)];
        return;
      }
      if got.signal == "awaiting-input" {
        CancelPendingReady();
        Resolve(got);
        return;
      }
      if got.signal == "ready" {
        if pendingReadyTimer.Some? {
          if got.confidence == HIGH && pendingReadyConfidence != Some(HIGH) {
            pendingReadySource, pendingReadyConfidence, pendingReadyTs := got.source, Some(got.confidence), Some(got.ts);
          }
          return;
        }
        pendingReadySource, pendingReadyConfidence, pendingReadyTs := got.source, Some(got.confidence), Some(got.ts);
        pendingReadyTimer := Some(now + windows.conflictMs);
        return;
      }
      if IsImmediate(got.signal) {
        if IsActivity(got.signal) {
          CancelPendingReady();
        }
        Resolve(got);
      }
    }

    method Resolve(next: Signal)
      modifies this`last, this`log
      ensures last == if IsRepeat(old(last), next, windows) then old(last) else Some(next)
      ensures log == if IsRepeat(old(last), next, windows) then old(log) else old(log) + [Emitted(next, now)]
    {
      var isRapidDuplicate :=
        last.Some? && last.value.signal == next.signal && next.ts - last.value.ts < windows.dedupMs;
      var isHigherConfidence := Rank(next.confidence) > if last.Some? then Rank(last.value.confidence) else 0;
      if isRapidDuplicate && !isHigherConfidence {
        return;
      }
      last := Some(next);
      log := log + [Emitted(next, now)];
    }

    method CancelPendingReady()
      requires Valid()
      modifies this`pendingReadyTimer, this`pendingReadySource, this`pendingReadyConfidence, this`pendingReadyTs
      ensures Valid() && PendingReady() == None
    {
      if pendingReadyTimer.Some? {
        pendingReadyTimer, pendingReadySource, pendingReadyConfidence, pendingReadyTs := None, None, None, None;
      }
    }

    /** Time goes by, and the ready timer fires if its deadline is reached. */
    method Elapse(time: nat)
      requires Valid()
      modifies this
      ensures Valid() && Value() == OnPassing(old(Value()), time, windows)
    {
      var to := now + time;
      if pendingReadyTimer.Some? && pendingReadyTimer.value <= to {
        now := pendingReadyTimer.value;
        OnTimer();
      }
      now := to;
    }

    method OnTimer()
      requires Valid() && pendingReadyTimer == Some(now)
      modifies this`pendingReadyTimer, this`pendingReadySource, this`pendingReadyConfidence, this`pendingReadyTs,
        this`last, this`log
      ensures Valid() && PendingReady() == None
      ensures
        var p := old(PendingReady()).value;
        var resolved := StatusModel.Resolve(State(None, old(last), now, isDestroyed, old(log) + [WindowClosed(now)]),
          Signal("ready", p.source, p.confidence, p.ts), windows);
        last == resolved.last && log == resolved.log
    {
      log := log + [WindowClosed(now)];
      var source, confidence, originTs := pendingReadySource, pendingReadyConfidence, pendingReadyTs;
      pendingReadyTimer, pendingReadySource, pendingReadyConfidence, pendingReadyTs := None, None, None, None;
      Resolve(Signal("ready", source, confidence.value, originTs.value));
    }

    method Reset()
      requires Valid()
      modifies this
      ensures Valid() && Value() == Step(old(Value()), Resetting, windows)
    {
      CancelPendingReady();
      last := None;
      log := log + [WasReset];
    }

    method Destroy()
      requires Valid()
      modifies this
      ensures Valid() && Value() == Step(old(Value()), Destroying, windows)
    {
      isDestroyed := true;
      CancelPendingReady();
    }
  }
}
