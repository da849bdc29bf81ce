/** The merger told from its history: what every emitted status needs. */
module StatusLaws {
  import opened Options
  import opened Sequences
  import opened StatusModel

  // ---------------------------------------------------------------- what a history says

  predicate IsReady(mark: Mark) {
    mark.Ingested? && mark.got.signal == "ready"
  }

  predicate IsSure(mark: Mark) {
    mark.Ingested? && mark.got.confidence == HIGH
  }

  /** What ends a batch of `ready` signals. */
  predicate Ends(mark: Mark) {
    || mark.WasReset? || mark.WindowClosed?
    || (mark.Ingested? && mark.got.signal in {"working", "resume", "awaiting-input"})
  }

  /** The batch that is waiting: its first `ready`, and the one it will be resolved with. */
  datatype Batch = NoBatch | Batch(first: Mark, chosen: Mark)

  function BatchOf(log: seq<Mark>): Batch {
    if log == [] then NoBatch
    else
      var last, batch := log[|log| - 1], BatchOf(log[..|log| - 1]);
      if Ends(last) then NoBatch
      else if !IsReady(last) then batch
      else if batch.NoBatch? then Batch(last, last)
      else if IsSure(last) && !IsSure(batch.chosen) then Batch(batch.first, last)
      else batch
  }

  /** The last status emitted since the last reset. */
  function LastEmitted(log: seq<Mark>): Option<Signal> {
    if log == [] then None
    else
      var last := log[|log| - 1];
      if last.Emitted? then Some(last.sent) else if last.WasReset? then None else LastEmitted(log[..|log| - 1])
  }

  /** A status may be emitted after this history: it is no repetition, and it is what was ingested or what a window settled on. */
  predicate Allowed(log: seq<Mark>, mark: Mark, windows: Windows)
    requires mark.Emitted?
  {
    && !IsRepeat(LastEmitted(log), mark.sent, windows)
    && log != []
    && var last, batch := log[|log| - 1], BatchOf(log[..|log| - 1]);
    if mark.sent.signal == "ready"
    then
      && last == WindowClosed(mark.at)
      && batch.Batch? && batch.first.Ingested? && batch.chosen.Ingested?
      && batch.first.at + windows.conflictMs == mark.at && batch.chosen.got == mark.sent
    else last == Ingested(mark.sent, mark.at) && IsImmediate(mark.sent.signal)
  }

  ghost predicate GoodLog(log: seq<Mark>, windows: Windows) {
    log == [] || (
      var last, before := log[|log| - 1], log[..|log| - 1];
      && GoodLog(before, windows)
      && (last.Emitted? ==> Allowed(before, last, windows)))
  }

  // ---------------------------------------------------------------- every run

  /** What is pending is exactly the batch that is waiting. */
  ghost predicate PendingFits(s: State, windows: Windows) {
    var batch := BatchOf(s.log);
    if batch.NoBatch? then s.pending.None?
    else
      && batch.first.Ingested? && IsReady(batch.chosen)
      && s.pending == Some(Pending(batch.chosen.got.source, batch.chosen.got.confidence, batch.chosen.got.ts,
                                   batch.first.at + windows.conflictMs))
  }

  ghost predicate Inv(s: State, windows: Windows) {
    && GoodLog(s.log, windows)
    && s.last == LastEmitted(s.log)
    && (s.pending.Some? ==> s.now <= s.pending.value.deadline)
    && if s.isDestroyed then s.pending.None? else PendingFits(s, windows)
  }

  lemma {:induction false} AppendGood(log: seq<Mark>, mark: Mark, windows: Windows)
    requires GoodLog(log, windows) && (mark.Emitted? ==> Allowed(log, mark, windows))
    ensures GoodLog(log + [mark], windows)
  {
    Snoc(log, mark);
  }

  /** Resolving keeps the history good and changes nothing else about the merger. */
  lemma {:induction false} ResolveKeeps(s: State, next: Signal, windows: Windows)
    requires GoodLog(s.log, windows) && s.last == LastEmitted(s.log)
    requires !IsRepeat(LastEmitted(s.log), next, windows) ==> Allowed(s.log, Emitted(next, s.now), windows)
    ensures
      var after := Resolve(s, next, windows);
      && GoodLog(after.log, windows) && after.last == LastEmitted(after.log)
      && BatchOf(after.log) == BatchOf(s.log)
      && after.pending == s.pending && after.now == s.now && after.isDestroyed == s.isDestroyed
  {
    hide GoodLog, Allowed;
    var mark := Emitted(next, s.now);
    if !IsRepeat(s.last, next, windows) {
      AppendGood(s.log, mark, windows);
      Snoc(s.log, mark);
    }
  }

  lemma {:induction false} MetaKeeps(log: seq<Mark>, mark: Mark, windows: Windows)
    requires GoodLog(log, windows) && mark.Meta?
    ensures GoodLog(log + [mark], windows)
    ensures LastEmitted(log + [mark]) == LastEmitted(log) && BatchOf(log + [mark]) == BatchOf(log)
  {
    AppendGood(log, mark, windows);
    Snoc(log, mark);
  }

  lemma {:induction false} HearKeeps(s: State, got: Signal, windows: Windows)
    requires Inv(s, windows)
    ensures
      var log := s.log + [Ingested(got, s.now)];
      GoodLog(log, windows) && LastEmitted(log) == s.last
  {
    AppendGood(s.log, Ingested(got, s.now), windows);
    Snoc(s.log, Ingested(got, s.now));
  }

  lemma {:induction false} HeardAllowed(log: seq<Mark>, got: Signal, at: nat, windows: Windows)
    requires IsImmediate(got.signal)
    ensures
      var heard := log + [Ingested(got, at)];
      !IsRepeat(LastEmitted(heard), got, windows) ==> Allowed(heard, Emitted(got, at), windows)
  {
  }

  /** What a signal does to the batch that is waiting. */
  lemma {:induction false} HeardBatch(log: seq<Mark>, mark: Mark)
    requires mark.Ingested?
    ensures
      var batch := BatchOf(log);
      BatchOf(log + [mark]) ==
        if Ends(mark) then NoBatch
        else if !IsReady(mark) then batch
        else if batch.NoBatch? then Batch(mark, mark)
        else if IsSure(mark) && !IsSure(batch.chosen) then Batch(batch.first, mark)
        else batch
  {
    Snoc(log, mark);
  }

  lemma {:induction false} IngestKeepsInv(s: State, raw: Raw, windows: Windows)
    requires Inv(s, windows)
    ensures Inv(Ingest(s, raw, windows), windows)
  {
    hide GoodLog, LastEmitted, BatchOf, Allowed, Resolve, Fill;
    if !s.isDestroyed && raw.signal != "" {
      var got := Fill(raw, s.now);
      var mark := Ingested(got, s.now);
      HearKeeps(s, got, windows);
      HeardBatch(s.log, mark);
      if got.signal == "unknown" {
        MetaKeeps(s.log + [mark], Meta(got, s.now), windows);
      } else if IsImmediate(got.signal) {
        HeardAllowed(s.log, got, s.now, windows);
        var pending := if got.signal in {"awaiting-input", "working", "resume"} then None else s.pending;
        ResolveKeeps(s.(log := s.log + [mark], pending := pending), got, windows);
      }
    }
  }

  lemma {:induction false} PassingKeepsInv(s: State, time: nat, windows: Windows)
    requires Inv(s, windows)
    ensures Inv(OnPassing(s, time, windows), windows)
  {
    hide GoodLog;
    if s.pending.Some? && s.pending.value.deadline <= s.now + time {
      var p := s.pending.value;
      var mark := WindowClosed(p.deadline);
      AppendGood(s.log, mark, windows);
      Snoc(s.log, mark);
      ResolveKeeps(s.(pending := None, now := p.deadline, log := s.log + [mark]),
        Signal("ready", p.source, p.confidence, p.ts), windows);
    }
  }

  lemma {:induction false} ResetSays(log: seq<Mark>, windows: Windows)
    requires GoodLog(log, windows)
    ensures GoodLog(log + [WasReset], windows)
    ensures LastEmitted(log + [WasReset]) == None && BatchOf(log + [WasReset]) == NoBatch
  {
    Snoc(log, WasReset);
  }

  lemma {:induction false} StepKeepsInv(s: State, event: Event, windows: Windows)
    requires Inv(s, windows)
    ensures Inv(Step(s, event, windows), windows)
  {
    match event
    case Ingesting(raw) => IngestKeepsInv(s, raw, windows);
    case Passing(time) => PassingKeepsInv(s, time, windows);
    case Resetting => ResetSays(s.log, windows);
    case Destroying =>
    hide Ingest, OnPassing, GoodLog, LastEmitted, BatchOf;
  }

  lemma {:induction false} RunKeepsInv(events: seq<Event>, windows: Windows)
    ensures Inv(Run(events, windows), windows)
  {
    if events != [] {
      RunKeepsInv(events[..|events| - 1], windows);
      StepKeepsInv(Run(events[..|events| - 1], windows), events[|events| - 1], windows);
    }
  }

  // ---------------------------------------------------------------- the same, by position in the history

  lemma {:induction false} GoodLogAt(log: seq<Mark>, windows: Windows, j: nat)
    requires GoodLog(log, windows) && j < |log| && log[j].Emitted?
    ensures Allowed(log[..j], log[j], windows)
  {
    if j < |log| - 1 {
      GoodLogAt(log[..|log| - 1], windows, j);
      assert log[..|log| - 1][..j] == log[..j];
    }
  }

  /** Where a waiting batch began and which of its signals was chosen. */
  ghost predicate BatchStands(log: seq<Mark>, first: nat, chosen: nat) {
    && first <= chosen < |log| && IsReady(log[first]) && IsReady(log[chosen])
    && (forall k :: first <= k < |log| ==> !Ends(log[k]))
    && (forall k :: first <= k < chosen ==> !(IsReady(log[k]) && IsSure(log[k])))
    && (IsSure(log[chosen]) || (chosen == first && forall k :: first <= k < |log| ==> !(IsReady(log[k]) && IsSure(log[k]))))
    && BatchOf(log[..first]).NoBatch?
  }

  lemma {:induction false} BatchAt(log: seq<Mark>) returns (first: nat, chosen: nat)
    requires BatchOf(log).Batch?
    ensures BatchStands(log, first, chosen)
    ensures log[first] == BatchOf(log).first && log[chosen] == BatchOf(log).chosen
  {
    var last, before := log[|log| - 1], log[..|log| - 1];
    if BatchOf(before).NoBatch? {
      first, chosen := |log| - 1, |log| - 1;
      assert log[..first] == before;
    } else {
      first, chosen := BatchAt(before);
      assert log[..first] == before[..first];
      if IsReady(last) && IsSure(last) && !IsSure(BatchOf(before).chosen) {
        chosen := |log| - 1;
      }
    }
  }

  /**
   Every emitted `ready` comes exactly one conflict window after the first `ready` of its batch, with no
   `working`, `resume`, `awaiting-input` or reset in between, and is the first high-confidence `ready` of
   that batch if there is one, else the first.
   */
  lemma {:induction false} ReadyIsSettled(
      events: seq<Event>, windows: Windows, j: nat) returns (first: nat, chosen: nat)
    requires j < |Run(events, windows).log|
    requires Run(events, windows).log[j].Emitted? && Run(events, windows).log[j].sent.signal == "ready"
    ensures
      var log := Run(events, windows).log;
      && j > 0 && log[j - 1] == WindowClosed(log[j].at)
      && BatchStands(log[..j - 1], first, chosen)
      && log[first].at + windows.conflictMs == log[j].at
      && log[chosen].got == log[j].sent
  {
    hide Ends, IsReady, IsSure;
    var log := Run(events, windows).log;
    RunKeepsInv(events, windows);
    GoodLogAt(log, windows, j);
    assert log[..j][..j - 1] == log[..j - 1];
    first, chosen := BatchAt(log[..j - 1]);
  }

  /** Every other emitted status repeats the signal just ingested. */
  lemma {:induction false} OthersAreImmediate(events: seq<Event>, windows: Windows, j: nat)
    requires j < |Run(events, windows).log|
    requires Run(events, windows).log[j].Emitted? && Run(events, windows).log[j].sent.signal != "ready"
    ensures
      var log := Run(events, windows).log;
      j > 0 && log[j - 1] == Ingested(log[j].sent, log[j].at) && IsImmediate(log[j].sent.signal)
  {
    var log := Run(events, windows).log;
    RunKeepsInv(events, windows);
    GoodLogAt(log, windows, j);
  }

  lemma {:induction false} LastEmittedAt(log: seq<Mark>, i: nat)
    requires i < |log| && log[i].Emitted?
    requires forall k :: i < k < |log| ==> !log[k].Emitted? && !log[k].WasReset?
    ensures LastEmitted(log) == Some(log[i].sent)
  {
    if i < |log| - 1 {
      LastEmittedAt(log[..|log| - 1], i);
    }
  }

  /** Between resets, consecutive statuses with one signal are a dedup window apart or strictly rise in confidence. */
  lemma {:induction false} RepeatsAreRare(events: seq<Event>, windows: Windows, i: nat, j: nat)
    requires i < j < |Run(events, windows).log|
    requires
      var log := Run(events, windows).log;
      && log[i].Emitted? && log[j].Emitted? && log[i].sent.signal == log[j].sent.signal
      && forall k :: i < k < j ==> !log[k].Emitted? && !log[k].WasReset?
    ensures
      var log := Run(events, windows).log;
      || log[j].sent.ts - log[i].sent.ts >= windows.dedupMs
      || Rank(log[j].sent.confidence) > Rank(log[i].sent.confidence)
  {
    var log := Run(events, windows).log;
    RunKeepsInv(events, windows);
    GoodLogAt(log, windows, j);
    LastEmittedAt(log[..j], i);
  }

  /** Until it is destroyed, a `ready` is pending iff the history holds a batch that has neither ended nor been closed. */
  lemma {:induction false} PendingIff(events: seq<Event>, windows: Windows)
    requires !Run(events, windows).isDestroyed
    ensures
      var s := Run(events, windows);
      && (s.pending.Some? <==> BatchOf(s.log).Batch?)
      && (s.pending.Some? ==>
        && BatchOf(s.log).first.Ingested?
        && s.now <= s.pending.value.deadline == BatchOf(s.log).first.at + windows.conflictMs)
  {
    RunKeepsInv(events, windows);
  }
}
