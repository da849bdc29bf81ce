/**
 What the status merger must say: every signal told is logged as it came, and every one that is not held back as
 a repetition is followed at once by its status. By position in the history of a run.
 */
module StatusSignals {
  import opened Options
  import opened Sequences
  import opened StatusModel
  import opened StatusLaws

  // ---------------------------------------------------------------- a signal as it is logged

  /** A signal with what was missing filled in: hooks are sure, others are not, and the time is now. */
  predicate FilledIn(raw: Raw, got: Signal, now: nat) {
    && got.signal == raw.signal && got.source == raw.source
    && (raw.ts.Some? ==> got.ts == raw.ts.value) && (raw.ts.None? ==> got.ts == now)
    && (raw.confidence.Some? && raw.confidence.value != "" ==> got.confidence == raw.confidence.value)
    && (raw.confidence.None? || raw.confidence.value == "" ==>
      got.confidence == if raw.source == Some("hook") then "high" else "low")
  }

  /** A signal told before the merger is destroyed is logged at once, as it came; one that is empty is not. */
  lemma {:induction false} ToldIsLogged(s: State, raw: Raw, windows: Windows)
    requires !s.isDestroyed
    ensures
      var after := Step(s, Ingesting(raw), windows);
      && !after.isDestroyed && after.now == s.now
      && (raw.signal == "" ==> after == s)
      && (raw.signal != "" ==>
        && |after.log| > |s.log| && after.log[..|s.log|] == s.log
        && after.log[|s.log|].Ingested? && after.log[|s.log|].at == s.now
        && FilledIn(raw, after.log[|s.log|].got, s.now)
        && forall k :: |s.log| < k < |after.log| ==> !after.log[k].Ingested?)
  {
  }

  // ---------------------------------------------------------------- what is held back

  /** The signals that are passed on at once. */
  predicate IsUrgent(signal: string) {
    || signal == "working" || signal == "resume" || signal == "awaiting-input"
    || signal == "session-start" || signal == "session-end"
  }

  /** The last status since the last reset has the same signal, came less than a dedup window before, and was as sure. */
  ghost predicate HeldBack(log: seq<Mark>, next: Signal, windows: Windows) {
    exists i ::
      && 0 <= i < |log| && log[i].Emitted? && (forall k :: i < k < |log| ==> !log[k].Emitted? && !log[k].WasReset?)
      && log[i].sent.signal == next.signal && next.ts - log[i].sent.ts < windows.dedupMs
      && (log[i].sent.confidence == "high" || next.confidence != "high")
  }

  lemma {:induction false} LastEmittedWhere(log: seq<Mark>) returns (i: nat)
    requires LastEmitted(log).Some?
    ensures i < |log| && log[i].Emitted? && log[i].sent == LastEmitted(log).value
    ensures forall k :: i < k < |log| ==> !log[k].Emitted? && !log[k].WasReset?
  {
    i := |log| - 1;
    if !log[i].Emitted? {
      i := LastEmittedWhere(log[..|log| - 1]);
    }
  }

  lemma {:induction false} HeldBackIff(log: seq<Mark>, next: Signal, windows: Windows)
    ensures HeldBack(log, next, windows) <==> IsRepeat(LastEmitted(log), next, windows)
  {
    hide LastEmitted;
    if IsRepeat(LastEmitted(log), next, windows) {
      var i := LastEmittedWhere(log);
    }
    if i :|
      && 0 <= i < |log| && log[i].Emitted? && (forall k :: i < k < |log| ==> !log[k].Emitted? && !log[k].WasReset?)
      && log[i].sent.signal == next.signal && next.ts - log[i].sent.ts < windows.dedupMs
      && (log[i].sent.confidence == "high" || next.confidence != "high")
    {
      LastEmittedAt(log, i);
    }
  }

  // ---------------------------------------------------------------- what follows a mark

  predicate FollowedBy(log: seq<Mark>, j: nat, next: Mark) {
    j + 1 < |log| && log[j + 1] == next
  }

  /** What must follow the mark at `j`: the status it calls for unless held back, or the word that a signal is unknown. */
  ghost predicate Answered(log: seq<Mark>, windows: Windows, j: nat)
    requires j < |log|
  {
    match log[j]
    case Ingested(got, at) =>
      && (IsUrgent(got.signal) ==> (FollowedBy(log, j, Emitted(got, at)) <==> !HeldBack(log[..j], got, windows)))
      && (got.signal == "unknown" ==> FollowedBy(log, j, Meta(got, at)))
    case WindowClosed(at) =>
      BatchOf(log[..j]).Batch? && BatchOf(log[..j]).chosen.Ingested?
      && var chosen := BatchOf(log[..j]).chosen.got;
      FollowedBy(log, j, Emitted(chosen, at)) <==> !HeldBack(log[..j], chosen, windows)
    case _ => true
  }

  /** Whatever is logged last has been answered already, with nothing more to come. */
  ghost predicate AllAnswered(log: seq<Mark>, windows: Windows) {
    forall j :: 0 <= j < |log| ==> Answered(log, windows, j)
  }

  predicate IsCall(mark: Mark) {
    mark.Ingested? || mark.WindowClosed? || mark.WasReset?
  }

  lemma {:induction false} AnsweredOn(log: seq<Mark>, more: seq<Mark>, windows: Windows, j: nat)
    requires j < |log| && Answered(log, windows, j) && (more != [] ==> IsCall(more[0]))
    ensures Answered(log + more, windows, j)
  {
    var all := log + more;
    assert all[j] == log[j] && all[..j] == log[..j];
    hide HeldBack, BatchOf, IsUrgent;
    assert j + 1 < |log| ==> all[j + 1] == log[j + 1];
  }

  /** A mark with its answer, put to a history in which everything was answered. */
  lemma {:induction false} AnsweredMore(log: seq<Mark>, mark: Mark, answer: seq<Mark>, windows: Windows)
    requires AllAnswered(log, windows) && IsCall(mark) && |answer| <= 1
    requires answer != [] ==> answer[0].Emitted? || answer[0].Meta?
    requires var all := log + ([mark] + answer); Answered(all, windows, |log|)
    ensures AllAnswered(log + ([mark] + answer), windows)
  {
    hide Answered;
    var more := [mark] + answer;
    var all := log + more;
    forall j | 0 <= j < |all|
      ensures Answered(all, windows, j)
    {
      if j < |log| {
        AnsweredOn(log, more, windows, j);
      } else if j > |log| {
        assert all[j] == answer[0];
        NoAnswerNeeded(all, windows, j);
      }
    }
  }

  lemma {:induction false} NoAnswerNeeded(log: seq<Mark>, windows: Windows, j: nat)
    requires j < |log| && (log[j].Emitted? || log[j].Meta? || log[j].WasReset?)
    ensures Answered(log, windows, j)
  {
  }

  // ---------------------------------------------------------------- every step, every run

  /** A signal's mark, and what follows it. */
  lemma {:induction false} IngestLogs(s: State, raw: Raw, windows: Windows)
    requires !s.isDestroyed && raw.signal != ""
    ensures
      var got := Fill(raw, s.now);
      Ingest(s, raw, windows).log == s.log + ([Ingested(got, s.now)]
        + if got.signal == "unknown" then [Meta(got, s.now)]
          else if IsUrgent(got.signal) && !IsRepeat(s.last, got, windows) then [Emitted(got, s.now)]
          else [])
  {
    var got := Fill(raw, s.now);
    var mark := Ingested(got, s.now);
    assert IsImmediate(got.signal) <==> IsUrgent(got.signal);
    hide IsRepeat, Fill, IsUrgent, IsImmediate;
    Assoc(s.log, [mark], [Emitted(got, s.now)]);
    Assoc(s.log, [mark], [Meta(got, s.now)]);
    assert [mark] + [] == [mark];
  }

  lemma {:induction false} IngestAnswers(s: State, raw: Raw, windows: Windows)
    requires s.last == LastEmitted(s.log) && AllAnswered(s.log, windows)
    ensures AllAnswered(Ingest(s, raw, windows).log, windows)
  {
    if !s.isDestroyed && raw.signal != "" {
      var got := Fill(raw, s.now);
      IngestLogs(s, raw, windows);
      HeldBackIff(s.log, got, windows);
      var answer :=
        if got.signal == "unknown" then [Meta(got, s.now)]
        else if IsUrgent(got.signal) && !IsRepeat(s.last, got, windows) then [Emitted(got, s.now)]
        else [];
      hide Ingest, LastEmitted, IsRepeat, HeldBack, Fill, AllAnswered;
      MarkIngested(s.log, got, s.now, answer, windows);
      AnsweredMore(s.log, Ingested(got, s.now), answer, windows);
    }
  }

  lemma {:induction false} MarkIngested(log: seq<Mark>, got: Signal, at: nat, answer: seq<Mark>, windows: Windows)
    requires answer ==
        if got.signal == "unknown" then [Meta(got, at)]
        else if IsUrgent(got.signal) && !HeldBack(log, got, windows) then [Emitted(got, at)]
        else []
    ensures var all := log + ([Ingested(got, at)] + answer); Answered(all, windows, |log|)
  {
    hide HeldBack;
    var all := log + ([Ingested(got, at)] + answer);
    assert all[|log|] == Ingested(got, at) && all[..|log|] == log;
    assert answer != [] ==> all[|log| + 1] == answer[0];
  }

  lemma {:induction false} PassingAnswers(s: State, time: nat, windows: Windows)
    requires Inv(s, windows) && AllAnswered(s.log, windows)
    ensures AllAnswered(OnPassing(s, time, windows).log, windows)
  {
    if s.pending.Some? && s.pending.value.deadline <= s.now + time {
      var p := s.pending.value;
      var next := Signal("ready", p.source, p.confidence, p.ts);
      var answer := if IsRepeat(s.last, next, windows) then [] else [Emitted(next, p.deadline)];
      assert OnPassing(s, time, windows).log == s.log + ([WindowClosed(p.deadline)] + answer) by {
        Assoc(s.log, [WindowClosed(p.deadline)], [Emitted(next, p.deadline)]);
        assert [WindowClosed(p.deadline)] + [] == [WindowClosed(p.deadline)];
      }
      HeldBackIff(s.log, next, windows);
      assert BatchOf(s.log).Batch? && BatchOf(s.log).chosen.Ingested? && BatchOf(s.log).chosen.got == next;
      hide OnPassing, LastEmitted, IsRepeat, HeldBack, AllAnswered, BatchOf, GoodLog;
      MarkClosed(s.log, next, p.deadline, answer, windows);
      AnsweredMore(s.log, WindowClosed(p.deadline), answer, windows);
    }
  }

  lemma {:induction false} MarkClosed(log: seq<Mark>, next: Signal, at: nat, answer: seq<Mark>, windows: Windows)
    requires BatchOf(log).Batch? && BatchOf(log).chosen.Ingested? && BatchOf(log).chosen.got == next
    requires answer == if HeldBack(log, next, windows) then [] else [Emitted(next, at)]
    ensures var all := log + ([WindowClosed(at)] + answer); Answered(all, windows, |log|)
  {
    hide HeldBack, BatchOf;
    var all := log + ([WindowClosed(at)] + answer);
    assert all[|log|] == WindowClosed(at) && all[..|log|] == log;
    assert answer != [] ==> all[|log| + 1] == answer[0];
  }

  lemma {:induction false} StepAnswers(s: State, event: Event, windows: Windows)
    requires Inv(s, windows) && AllAnswered(s.log, windows)
    ensures AllAnswered(Step(s, event, windows).log, windows)
  {
    match event
    case Ingesting(raw) => IngestAnswers(s, raw, windows);
    case Passing(time) => PassingAnswers(s, time, windows);
    case Resetting =>
      var all := s.log + ([WasReset] + []);
      assert all[|s.log|] == WasReset && all == s.log + [WasReset];
      NoAnswerNeeded(all, windows, |s.log|);
      AnsweredMore(s.log, WasReset, [], windows);
    case Destroying =>
    hide Ingest, OnPassing, AllAnswered, GoodLog, LastEmitted, BatchOf;
  }

  lemma {:induction false} RunAnswers(events: seq<Event>, windows: Windows)
    ensures AllAnswered(Run(events, windows).log, windows)
  {
    hide Step, Answered;
    if events != [] {
      RunAnswers(events[..|events| - 1], windows);
      RunKeepsInv(events[..|events| - 1], windows);
      StepAnswers(Run(events[..|events| - 1], windows), events[|events| - 1], windows);
    }
  }

  /**
   In every run a working, resume, awaiting-input, session-start or session-end signal is followed at once by its
   status iff it is not held back, and an unknown one by the word that it is unknown.
   */
  lemma {:induction false} UrgentIsEmittedIff(events: seq<Event>, windows: Windows, j: nat)
    requires j < |Run(events, windows).log| && Run(events, windows).log[j].Ingested?
    ensures
      var log := Run(events, windows).log;
      var got, at := log[j].got, log[j].at;
      && (IsUrgent(got.signal) ==> (FollowedBy(log, j, Emitted(got, at)) <==> !HeldBack(log[..j], got, windows)))
      && (got.signal == "unknown" ==> FollowedBy(log, j, Meta(got, at)))
  {
    RunAnswers(events, windows);
    assert Answered(Run(events, windows).log, windows, j);
  }

  /**
   And each window that closes is followed at once by the chosen `ready` of its batch iff that is not held back.
   */
  lemma {:induction false} ReadyIsEmittedIff(
      events: seq<Event>, windows: Windows, j: nat) returns (first: nat, chosen: nat)
    requires j < |Run(events, windows).log| && Run(events, windows).log[j].WindowClosed?
    ensures
      var log := Run(events, windows).log;
      && BatchStands(log[..j], first, chosen) && log[chosen].Ingested?
      && (FollowedBy(log, j, Emitted(log[chosen].got, log[j].at)) <==> !HeldBack(log[..j], log[chosen].got, windows))
  {
    RunAnswers(events, windows);
    var log := Run(events, windows).log;
    assert Answered(log, windows, j);
    first, chosen := BatchAt(log[..j]);
  }

  /** A batch that stands is closed as soon as a conflict window has passed since its first `ready`, and no sooner. */
  lemma {:induction false} WindowClosesIff(events: seq<Event>, windows: Windows, time: nat)
    requires !Run(events, windows).isDestroyed
    ensures
      var s := Run(events, windows);
      var after := Step(s, Passing(time), windows);
      && after.now == s.now + time
      && (after.log != s.log <==>
        BatchOf(s.log).Batch? && BatchOf(s.log).first.Ingested? && BatchOf(s.log).first.at + windows.conflictMs <= s.now + time)
      && (after.log != s.log ==>
        |after.log| > |s.log| && after.log[|s.log|] == WindowClosed(BatchOf(s.log).first.at + windows.conflictMs))
  {
    RunKeepsInv(events, windows);
    hide Run, GoodLog, BatchOf, LastEmitted;
  }
}
