/** The latch told from its history: when its timer is armed, and what every `ready` needs. */
module TitleLatchLaws {
  import opened Options
  import opened Sequences
  import opened OscTitleModel
  import opened TitleLatchModel

  // ---------------------------------------------------------------- what a history says

  /** A spinner has been seen since the last reset. */
  predicate SpinnerSince(log: seq<Mark>) {
    log != [] &&
    var last, before := log[|log| - 1], log[..|log| - 1];
    !last.WasReset? && ((last.Seen? && last.kind == Working) || SpinnerSince(before))
  }

  predicate Quiet(mark: Mark) {
    mark.WasResynced? || (mark.Seen? && mark.kind == Ignore)
  }

  /** The ready title after which nothing but ignored titles and resyncs came. */
  function QuietReady(log: seq<Mark>): Option<Mark> {
    if log == [] then None
    else
      var last, before := log[|log| - 1], log[..|log| - 1];
      if last.Seen? && last.kind == Ready then Some(last) else if Quiet(last) then QuietReady(before) else None
  }

  predicate IsOtherTitle(mark: Mark) {
    mark.Seen? && mark.kind != Ready && mark.kind != Ignore
  }

  predicate IsReadySignal(mark: Mark) {
    mark.Emitted? && mark.signal == Ready
  }

  /** `ready` was emitted, and neither a reset nor another kind of title came after it. */
  predicate Settled(log: seq<Mark>) {
    log != [] &&
    var last, before := log[|log| - 1], log[..|log| - 1];
    IsReadySignal(last) || (!last.WasReset? && !IsOtherTitle(last) && Settled(before))
  }

  /** The history at which `ready` is due at a given time: spinner seen, quiet for exactly `ms`, not settled yet. */
  predicate Deserved(log: seq<Mark>, glyph: int, at: nat, ms: nat) {
    && SpinnerSince(log) && !Settled(log)
    && QuietReady(log).Some? && QuietReady(log).value.Seen?
    && QuietReady(log).value.glyph == glyph && QuietReady(log).value.at + ms == at
  }

  ghost predicate GoodLog(log: seq<Mark>, ms: nat) {
    log == [] || (
      var last, before := log[|log| - 1], log[..|log| - 1];
      && GoodLog(before, ms)
      && (IsReadySignal(last) ==> Deserved(before, last.glyph, last.at, ms)))
  }

  // ---------------------------------------------------------------- every run

  /** The timer is exactly what the history calls for. */
  ghost predicate TimerFits(s: State, ms: nat) {
    if SpinnerSince(s.log) && !Settled(s.log) && QuietReady(s.log).Some?
    then s.latch.timer.Some? && Deserved(s.log, s.latch.timer.value.glyph, s.latch.timer.value.deadline, ms)
    else s.latch.timer.None?
  }

  ghost predicate Inv(s: State, ms: nat) {
    && GoodLog(s.log, ms)
    && (s.latch.timer.Some? ==> s.latch.now <= s.latch.timer.value.deadline)
    && if s.latch.isDestroyed then s.latch.timer.None?
       else
         && s.latch.hasSeenSpinner == SpinnerSince(s.log)
         && (s.latch.lastKind == WasReady <==> Settled(s.log))
         && (s.latch.lastKind == IdlePending <==> s.latch.timer.Some?)
         && TimerFits(s, ms)
  }

  lemma {:induction false} AppendGood(log: seq<Mark>, mark: Mark, ms: nat)
    requires GoodLog(log, ms) && !IsReadySignal(mark)
    ensures GoodLog(log + [mark], ms)
  {
    Snoc(log, mark);
  }

  /** What a title adds to the history. */
  lemma {:induction false} SeenSays(log: seq<Mark>, seen: Mark)
    requires seen.Seen?
    ensures SpinnerSince(log + [seen]) <==> seen.kind == Working || SpinnerSince(log)
    ensures Settled(log + [seen]) <==> !IsOtherTitle(seen) && Settled(log)
    ensures QuietReady(log + [seen])
      == if seen.kind == Ready then Some(seen) else if seen.kind == Ignore then QuietReady(log) else None
  {
    Snoc(log, seen);
  }

  /** What a signal other than `ready` adds to it. */
  lemma {:induction false} EmittedSays(log: seq<Mark>, emitted: Mark)
    requires emitted.Emitted? && emitted.signal != Ready
    ensures SpinnerSince(log + [emitted]) <==> SpinnerSince(log)
    ensures Settled(log + [emitted]) <==> Settled(log)
    ensures QuietReady(log + [emitted]) == None
  {
    Snoc(log, emitted);
  }

  /** What a resync or a reset adds to it. */
  lemma {:induction false} CallSays(log: seq<Mark>, mark: Mark, ms: nat)
    requires GoodLog(log, ms) && (mark == WasResynced || mark == WasReset)
    ensures GoodLog(log + [mark], ms)
    ensures SpinnerSince(log + [mark]) <==> mark == WasResynced && SpinnerSince(log)
    ensures Settled(log + [mark]) <==> mark == WasResynced && Settled(log)
    ensures mark == WasResynced ==> QuietReady(log + [mark]) == QuietReady(log)
  {
    Snoc(log, mark);
  }

  lemma {:induction false} TitleKeepsInv(s: State, kind: TitleKind, glyph: int, ms: nat)
    requires Inv(s, ms)
    ensures Inv(OnTitle(s, kind, glyph, ms), ms)
  {
    hide GoodLog, SpinnerSince, Settled, QuietReady;
    var seen := Seen(kind, glyph, s.latch.now);
    SeenSays(s.log, seen);
    AppendGood(s.log, seen, ms);
    var after := OnTitle(s, kind, glyph, ms);
    if |after.log| == |s.log| + 2 {
      var emitted := Emitted(kind, glyph, s.latch.now);
      EmittedSays(s.log + [seen], emitted);
      AppendGood(s.log + [seen], emitted, ms);
      assert after.log == s.log + [seen] + [emitted];
    }
  }

  lemma {:induction false} PassingKeepsInv(s: State, time: nat, ms: nat)
    requires Inv(s, ms)
    ensures Inv(OnPassing(s, time), ms)
  {
    if s.latch.timer.Some? {
      Snoc(s.log, Emitted(Ready, s.latch.timer.value.glyph, s.latch.timer.value.deadline));
    }
  }

  lemma {:induction false} StepKeepsInv(s: State, event: Event, ms: nat)
    requires Inv(s, ms)
    ensures Inv(Step(s, event, ms), ms)
  {
    match event
    case Titling(kind, glyph) => TitleKeepsInv(s, kind, glyph, ms);
    case Passing(time) => PassingKeepsInv(s, time, ms);
    case Resyncing => CallSays(s.log, WasResynced, ms);
    case Resetting => CallSays(s.log, WasReset, ms);
    case Destroying =>
    hide OnTitle, OnPassing, GoodLog, SpinnerSince, Settled, QuietReady;
  }

  lemma {:induction false} RunKeepsInv(events: seq<Event>, ms: nat)
    ensures Inv(Run(events, ms), ms)
  {
    if events != [] {
      RunKeepsInv(events[..|events| - 1], ms);
      StepKeepsInv(Run(events[..|events| - 1], ms), events[|events| - 1], ms);
    }
  }

  /** Titles read from the stream are steps like any other. */
  lemma {:induction false} ProcessTitlesKeepInv(
      s: State, profile: Profile, context: TitleContext, titles: seq<Text>, ms: nat)
    requires Inv(s, ms)
    ensures Inv(ProcessTitles(s, profile, context, titles, ms), ms)
  {
    hide Inv, OnTitle, Classify;
    if titles != [] {
      ProcessTitlesKeepInv(s, profile, context, titles[..|titles| - 1], ms);
      var before := ProcessTitles(s, profile, context, titles[..|titles| - 1], ms);
      var trimmed := Trimmed(titles[|titles| - 1]);
      if trimmed != [] {
        TitleKeepsInv(before, Classify(profile, context, trimmed, CodePoint(trimmed)), CodePoint(trimmed), ms);
      }
    }
  }

  /** Until it is destroyed, the timer is armed iff the last kind is idle-pending, iff the history calls for it. */
  lemma {:induction false} ArmedIff(events: seq<Event>, ms: nat)
    requires !Run(events, ms).latch.isDestroyed
    ensures
      var s := Run(events, ms);
      && (s.latch.timer.Some? <==> s.latch.lastKind == IdlePending)
      && (s.latch.timer.Some? <==> SpinnerSince(s.log) && !Settled(s.log) && QuietReady(s.log).Some?)
  {
    RunKeepsInv(events, ms);
  }

  /** As time passes `ready` is emitted iff the history calls for it by then, and at exactly its time. */
  lemma {:induction false} ReadyIff(events: seq<Event>, time: nat, ms: nat, glyph: int, at: nat)
    requires !Run(events, ms).latch.isDestroyed
    ensures
      var s := Run(events, ms);
      (OnPassing(s, time).log == s.log + [Emitted(Ready, glyph, at)]) <==>
      (Deserved(s.log, glyph, at, ms) && at <= s.latch.now + time)
  {
    RunKeepsInv(events, ms);
    var s := Run(events, ms);
    var after := OnPassing(s, time);
    if after.log == s.log + [Emitted(Ready, glyph, at)] {
      assert after.log[|s.log|] == Emitted(Ready, glyph, at);
    }
  }

  // ---------------------------------------------------------------- the same, by position in the history

  lemma {:induction false} GoodLogAt(log: seq<Mark>, ms: nat, j: nat)
    requires GoodLog(log, ms) && j < |log| && IsReadySignal(log[j])
    ensures Deserved(log[..j], log[j].glyph, log[j].at, ms)
  {
    if j < |log| - 1 {
      GoodLogAt(log[..|log| - 1], ms, j);
      assert log[..|log| - 1][..j] == log[..j];
    }
  }

  lemma {:induction false} SpinnerAt(log: seq<Mark>) returns (i: nat)
    requires SpinnerSince(log)
    ensures i < |log| && log[i].Seen? && log[i].kind == Working
    ensures forall k :: i < k < |log| ==> !log[k].WasReset?
  {
    i := |log| - 1;
    if !(log[i].Seen? && log[i].kind == Working) {
      i := SpinnerAt(log[..|log| - 1]);
    }
  }

  lemma {:induction false} QuietReadyAt(log: seq<Mark>) returns (i: nat)
    requires QuietReady(log).Some?
    ensures i < |log| && log[i] == QuietReady(log).value && log[i].Seen? && log[i].kind == Ready
    ensures forall k :: i < k < |log| ==> Quiet(log[k])
  {
    i := |log| - 1;
    if !(log[i].Seen? && log[i].kind == Ready) {
      i := QuietReadyAt(log[..|log| - 1]);
    }
  }

  lemma {:induction false} UnsettledAt(log: seq<Mark>, i: nat) returns (k: nat)
    requires !Settled(log) && i < |log| && IsReadySignal(log[i])
    ensures i < k < |log| && (log[k].WasReset? || IsOtherTitle(log[k]))
  {
    k := |log| - 1;
    if !log[k].WasReset? && !IsOtherTitle(log[k]) {
      k := UnsettledAt(log[..|log| - 1], i);
    }
  }

  lemma {:induction false} DeservedWhere(before: seq<Mark>, glyph: int, at: nat, ms: nat) returns (spinner: nat, title: nat)
    requires Deserved(before, glyph, at, ms)
    ensures
      && spinner < title < |before|
      && before[spinner].Seen? && before[spinner].kind == Working
      && (forall k :: spinner < k < |before| ==> !before[k].WasReset?)
      && before[title].Seen? && before[title].kind == Ready
      && before[title].glyph == glyph && before[title].at + ms == at
      && (forall k :: title < k < |before| ==> Quiet(before[k]))
  {
    spinner := SpinnerAt(before);
    title := QuietReadyAt(before);
    hide SpinnerSince, QuietReady, Settled;
    assert !Quiet(before[spinner]);
  }

  /**
   Every `ready` comes exactly `ms` after a ready title, with nothing but ignored titles and resyncs
   seen in between, and after a spinner with no reset since.
   */
  lemma {:induction false} ReadyIsEarned(events: seq<Event>, ms: nat, j: nat) returns (spinner: nat, title: nat)
    requires j < |Run(events, ms).log| && IsReadySignal(Run(events, ms).log[j])
    ensures
      var log := Run(events, ms).log;
      && spinner < title < j
      && log[spinner].Seen? && log[spinner].kind == Working
      && (forall k :: spinner < k < j ==> !log[k].WasReset?)
      && log[title].Seen? && log[title].kind == Ready
      && log[title].glyph == log[j].glyph && log[title].at + ms == log[j].at
      && (forall k :: title < k < j ==> Quiet(log[k]))
  {
    var log := Run(events, ms).log;
    RunKeepsInv(events, ms);
    GoodLogAt(log, ms, j);
    hide Run, GoodLog, Deserved, Quiet;
    spinner, title := DeservedWhere(log[..j], log[j].glyph, log[j].at, ms);
    assert forall k :: 0 <= k < j ==> log[..j][k] == log[k];
  }

  /** Between resets `ready` is never emitted twice without another kind of title in between. */
  lemma {:induction false} NeverReadyTwice(events: seq<Event>, ms: nat, i: nat, j: nat) returns (k: nat)
    requires i < j < |Run(events, ms).log|
    requires IsReadySignal(Run(events, ms).log[i]) && IsReadySignal(Run(events, ms).log[j])
    ensures i < k < j && (Run(events, ms).log[k].WasReset? || IsOtherTitle(Run(events, ms).log[k]))
  {
    var log := Run(events, ms).log;
    RunKeepsInv(events, ms);
    GoodLogAt(log, ms, j);
    k := UnsettledAt(log[..j], i);
  }
}
