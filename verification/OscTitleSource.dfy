/** The title source of one terminal: chunks in, signals out, all state updated in place. */
module OscTitleSources {
  import opened Options
  import opened OscTitleModel
  import opened TitleLatchModel

  class OscTitleSource {
    const stabilizationMs: nat
    const profile: Profile
    var context: TitleContext
    var hasSeenSpinner: bool
    var lastKind: LastKind
    var lastChar: Option<int>
    var stabilizationTimer: Option<Timer>
    var pending: Text
    var isDestroyed: bool
    /** The clock the source runs by. */
    var now: nat
    /** What was seen and emitted, in order. */
    var log: seq<Mark>

    ghost function Value(): State
      reads this`hasSeenSpinner, this`lastKind, this`lastChar, this`stabilizationTimer, this`isDestroyed, this`now, this`log
    {
      State(Latch(hasSeenSpinner, lastKind, lastChar, stabilizationTimer, now, isDestroyed), log)
    }

    constructor (stabilizationMs: nat, profile: Profile)
      ensures Value() == FRESH && pending == [] && context == TitleContext(None)
      ensures this.stabilizationMs == stabilizationMs && this.profile == profile
    {
      this.stabilizationMs, this.profile := stabilizationMs, profile;
      hasSeenSpinner, lastKind, lastChar, stabilizationTimer := false, NoKind, None, None;
      pending, isDestroyed, now, log := [], false, 0, [];
      context := TitleContext(None);
    }

    method Feed(chunk: Text)
      modifies this
      ensures isDestroyed == old(isDestroyed) && context == old(context)
      ensures isDestroyed ==> Value() == old(Value()) && pending == old(pending)
      ensures !isDestroyed ==> pending == FeedPending(old(pending), chunk)
      ensures !isDestroyed ==>
        Value() == ProcessTitles(old(Value()), profile, context, FeedTitles(old(pending), chunk), stabilizationMs)
    {
      hide FindOscTitle, Titles, TitlesEnd, Buffered, OscTitleSource.Value, TitleLatchModel.ProcessTitle;
      if isDestroyed || chunk == [] {
        return;
      }
      AddChunk(chunk);
      var cursor := ProcessBuffer();
      if cursor > 0 {
        pending := pending[cursor..];
      }
    }

    method AddChunk(chunk: Text)
      modifies this`pending
      ensures pending == Buffered(old(pending), chunk)
    {
      pending := pending + chunk;
      if |pending| > MAX_BUFFER {
        pending := pending[|pending| - KEPT_TAIL..];
      }
    }

    /** Processes every complete title in the buffer and says where the last one ends. */
    method ProcessBuffer() returns (cursor: nat)
      requires !isDestroyed
      modifies this`hasSeenSpinner, this`lastKind, this`lastChar, this`stabilizationTimer, this`log
      ensures cursor == TitlesEnd(pending, 0)
      ensures Value() == ProcessTitles(old(Value()), profile, context, Titles(pending, 0), stabilizationMs)
    {
      hide FindOscTitle, OscTitleSource.Value, TitleLatchModel.ProcessTitle;
      ghost var done := [];
      cursor := 0;
      var osc := FindOscTitle(pending, cursor);
      while osc.Some?
        invariant cursor <= |pending| && osc == FindOscTitle(pending, cursor)
        invariant Titles(pending, 0) == done + Titles(pending, cursor)
        invariant TitlesEnd(pending, 0) == TitlesEnd(pending, cursor)
        invariant Value() == ProcessTitles(old(Value()), profile, context, done, stabilizationMs)
        decreases |pending| - cursor
      {
        ProcessTitle(osc.value.title);
        assert (done + [osc.value.title])[..|done|] == done;
        done := done + [osc.value.title];
        cursor := osc.value.next;
        osc := FindOscTitle(pending, cursor);
      }
      assert done == Titles(pending, 0);
    }

    method ProcessTitle(title: Text)
      requires !isDestroyed
      modifies this`hasSeenSpinner, this`lastKind, this`lastChar, this`stabilizationTimer, this`log
      ensures Value() == TitleLatchModel.ProcessTitle(old(Value()), profile, context, title, stabilizationMs)
    {
      var trimmed := Trimmed(title);
      if trimmed == [] {
        return;
      }
      var glyph := CodePoint(trimmed);
      var kind := Classify(profile, context, trimmed, glyph);
      log := log + [Seen(kind, glyph, now)];
      if kind == Ignore {
        return;
      }
      if kind == Working {
        hasSeenSpinner, lastChar, stabilizationTimer := true, Some(glyph), None;
        if lastKind != WasWorking {
          lastKind := WasWorking;
          Emit(Working, glyph);
        }
        return;
      }
      if kind == AwaitingInput {
        lastChar, stabilizationTimer := Some(glyph), None;
        if lastKind != WasAwaiting {
          lastKind := WasAwaiting;
          Emit(AwaitingInput, glyph);
        }
        return;
      }
      lastChar := Some(glyph);
      if kind == Ready {
        if hasSeenSpinner && lastKind != WasReady {
          lastKind := IdlePending;
          ArmStabilization(glyph);
        }
        return;
      }
      if lastKind != WasUnknown {
        lastKind, stabilizationTimer := WasUnknown, None;
        Emit(Unknown, glyph);
      }
    }

    method ArmStabilization(glyph: int)
      modifies this`stabilizationTimer
      ensures stabilizationTimer == Some(Timer(now + stabilizationMs, glyph))
    {
      stabilizationTimer := Some(Timer(now + stabilizationMs, glyph));
    }

    method Emit(signal: TitleKind, glyph: int)
      modifies this`log
      ensures log == old(log) + [Emitted(signal, glyph, now)]
    {
      log := log + [Emitted(signal, glyph, now)];
    }

    /** Time goes by, and the timer fires if its deadline is reached. */
    method Elapse(time: nat)
      modifies this`lastKind, this`stabilizationTimer, this`now, this`log
      ensures Value() == OnPassing(old(Value()), time)
    {
      var to := now + time;
      if stabilizationTimer.Some? && stabilizationTimer.value.deadline <= to {
        now := stabilizationTimer.value.deadline;
        OnTimer(stabilizationTimer.value.glyph);
      }
      now := to;
    }

    method OnTimer(glyph: int)
      modifies this`lastKind, this`stabilizationTimer, this`log
      ensures stabilizationTimer == None
      ensures
        var fires := !isDestroyed && old(lastKind) == IdlePending;
        && lastKind == (if fires then WasReady else old(lastKind))
        && log == (if fires then old(log) + [Emitted(Ready, glyph, now)] else old(log))
    {
      stabilizationTimer := None;
      if isDestroyed || lastKind != IdlePending {
        return;
      }
      lastKind := WasReady;
      Emit(Ready, glyph);
    }

    method ResyncWorkingLatch()
      modifies this`lastKind, this`log
      ensures Value() == Step(old(Value()), Resyncing, stabilizationMs)
    {
      if isDestroyed {
        return;
      }
      log := log + [WasResynced];
      if lastKind != WasWorking {
        return;
      }
      lastKind := NoKind;
    }

    method SetContext(more: Option<TitleContext>)
      modifies this`context
      ensures context == if isDestroyed || more.None? then old(context) else Merged(old(context), more.value)
    {
      if isDestroyed || more.None? {
        return;
      }
      context := Merged(context, more.value);
    }

    method Reset()
      modifies this
      ensures context == old(context)
      ensures Value() == Step(old(Value()), Resetting, stabilizationMs)
      ensures pending == if isDestroyed then old(pending) else []
    {
      if isDestroyed {
        return;
      }
      log := log + [WasReset];
      hasSeenSpinner, lastKind, lastChar, pending := false, NoKind, None, [];
      stabilizationTimer := None;
    }

    method Destroy()
      modifies this`isDestroyed, this`stabilizationTimer, this`pending
      ensures Value() == Step(old(Value()), Destroying, stabilizationMs) && pending == []
    {
      isDestroyed, stabilizationTimer, pending := true, None, [];
    }
  }
}
