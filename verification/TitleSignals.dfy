/**
 What the title latch must say: each title is logged with the kind its text has, and a kind that is told at once is
 told exactly when it is not the one that stands already. By position in the history of a run.
 */
module TitleSignals {
  import opened Options
  import opened Sequences
  import opened OscTitleModel
  import opened TitleLatchModel
  import opened TitleLatchLaws

  // ---------------------------------------------------------------- the kind of a title

  /** What an adapter makes of a title: its own word for it, else a spinner before an idle glyph before plain letters. */
  predicate HasKind(profile: Profile, context: TitleContext, text: Text, glyph: int, kind: TitleKind) {
    if profile.classifyTitle.Some? then
      var word := profile.classifyTitle.value(text, context);
      && (kind == Ignore <==> word == "ignore") && (kind == Working <==> word == "working")
      && (kind == AwaitingInput <==> word == "awaiting-input") && (kind == Ready <==> word == "ready")
    else
      var isSpinner := profile.isSpinnerChar.Some? && profile.isSpinnerChar.value(glyph);
      var isIdle := profile.isIdleChar.Some? && profile.isIdleChar.value(glyph);
      && (kind == Working <==> isSpinner) && (kind == Ready <==> !isSpinner && isIdle) && kind != AwaitingInput
      && (kind == Ignore <==> !isSpinner && !isIdle && profile.dropsLeadingAscii && glyph < 0x80)
  }

  lemma {:induction false} FirstShown(title: Text) returns (i: nat)
    ensures i <= |title| && Trimmed(title) == title[i..]
    ensures forall k :: 0 <= k < i ==> IsBlank(title[k])
    ensures i < |title| ==> !IsBlank(title[i])
    decreases |title|
  {
    i := 0;
    if title != [] && IsBlank(title[0]) {
      i := FirstShown(title[1..]);
      i := i + 1;
      assert forall k :: 1 <= k < i ==> title[k] == title[1..][k - 1];
    }
  }

  /** A title is logged with its first code point that is shown, and the kind that has; a blank one is passed over. */
  lemma {:induction false} TitleIsSeen(
      s: State, profile: Profile, context: TitleContext, title: Text, ms: nat) returns (i: nat)
    requires !s.latch.isDestroyed
    ensures i <= |title| && (forall k :: 0 <= k < i ==> IsBlank(title[k])) && (i < |title| ==> !IsBlank(title[i]))
    ensures
      var after := ProcessTitle(s, profile, context, title, ms);
      && (i == |title| ==> after == s)
      && (i < |title| ==>
        && |after.log| > |s.log| && after.log[..|s.log|] == s.log && after.log[|s.log|].Seen?
        && var seen := after.log[|s.log|];
        && seen.at == s.latch.now && HasKind(profile, context, title[i..], seen.glyph, seen.kind)
        && (title[i] < 0xd800 || title[i] >= 0xdc00 ==> seen.glyph == title[i] as int))
  {
    i := FirstShown(title);
    if i < |title| {
      var text := title[i..];
      var glyph := CodePoint(text);
      var kind := Classify(profile, context, text, glyph);
      TitleLogs(s, kind, glyph, ms);
      assert s.log + ([Seen(kind, glyph, s.latch.now)] + Told(s, kind, glyph)) ==
        s.log + [Seen(kind, glyph, s.latch.now)] + Told(s, kind, glyph);
    }
  }

  // ---------------------------------------------------------------- what is told at once

  /** The mark leaves the kind that stands as it is. */
  predicate IsPassive(before: seq<Mark>, mark: Mark, kind: TitleKind) {
    || (mark.Seen? && (mark.kind == Ignore || mark.kind == kind || (mark.kind == Ready && !SpinnerSince(before))))
    || (mark.Emitted? && mark.signal != Ready)
    || (mark.WasResynced? && kind != Working)
  }

  /** A title of this kind was seen, and everything since left that kind standing. */
  ghost predicate Stands(log: seq<Mark>, kind: TitleKind) {
    exists i :: 0 <= i < |log| && log[i].Seen? && log[i].kind == kind && forall k :: i < k < |log| ==> IsPassive(log[..k], log[k], kind)
  }

  lemma {:induction false} StandsSnoc(log: seq<Mark>, mark: Mark, kind: TitleKind)
    ensures Stands(log + [mark], kind) <==>
      (mark.Seen? && mark.kind == kind) || (IsPassive(log, mark, kind) && Stands(log, kind))
  {
    hide IsPassive;
    var all := log + [mark];
    assert all[|log|] == mark && all[..|log|] == log;
    assert forall k :: 0 <= k < |log| ==> all[k] == log[k] && all[..k] == log[..k];
    if i :|
      && 0 <= i < |log| && log[i].Seen? && log[i].kind == kind && IsPassive(log, mark, kind)
      && (forall k :: i < k < |log| ==> IsPassive(log[..k], log[k], kind))
    {
      forall k | i < k < |all|
        ensures IsPassive(all[..k], all[k], kind)
      {
        if k < |log| {
          assert IsPassive(log[..k], log[k], kind);
        }
      }
      assert all[i].Seen?;
    }
    if i :| 0 <= i < |all| && all[i].Seen? && all[i].kind == kind && (forall k :: i < k < |all| ==> IsPassive(all[..k], all[k], kind)) {
      if i < |log| {
        assert IsPassive(all[..|log|], all[|log|], kind);
        forall k | i < k < |log|
          ensures IsPassive(log[..k], log[k], kind)
        {
          assert IsPassive(all[..k], all[k], kind);
        }
        assert log[i].Seen?;
      }
    }
  }

  function KindOf(kind: TitleKind): LastKind {
    match kind
    case Working => WasWorking
    case AwaitingInput => WasAwaiting
    case Unknown => WasUnknown
    case _ => NoKind
  }

  predicate IsTold(kind: TitleKind) {
    kind == Working || kind == AwaitingInput || kind == Unknown
  }

  /** The latch remembers the kind that stands. */
  ghost predicate Remembers(s: State) {
    !s.latch.isDestroyed ==> forall kind :: IsTold(kind) ==> (s.latch.lastKind == KindOf(kind) <==> Stands(s.log, kind))
  }

  /** What a title adds besides its own mark. */
  function Told(s: State, kind: TitleKind, glyph: int): seq<Mark> {
    if IsTold(kind) && s.latch.lastKind != KindOf(kind) then [Emitted(kind, glyph, s.latch.now)] else []
  }

  lemma {:induction false} TitleLogs(s: State, kind: TitleKind, glyph: int, ms: nat)
    requires !s.latch.isDestroyed
    ensures OnTitle(s, kind, glyph, ms).log == s.log + ([Seen(kind, glyph, s.latch.now)] + Told(s, kind, glyph))
    ensures
      var after := OnTitle(s, kind, glyph, ms).latch;
      && !after.isDestroyed
      && (IsTold(kind) ==> after.lastKind == KindOf(kind))
      && (kind == Ready && s.latch.hasSeenSpinner && s.latch.lastKind != WasReady ==> after.lastKind == IdlePending)
      && (!IsTold(kind) && !(kind == Ready && s.latch.hasSeenSpinner && s.latch.lastKind != WasReady) ==>
        after.lastKind == s.latch.lastKind)
  {
    assert [Seen(kind, glyph, s.latch.now)] + [] == [Seen(kind, glyph, s.latch.now)];
    Assoc(s.log, [Seen(kind, glyph, s.latch.now)], [Emitted(kind, glyph, s.latch.now)]);
  }

  lemma {:induction false} TitleRemembers(s: State, kind: TitleKind, glyph: int, ms: nat)
    requires Inv(s, ms) && Remembers(s)
    ensures Remembers(OnTitle(s, kind, glyph, ms))
  {
    if !s.latch.isDestroyed {
      TitleLogs(s, kind, glyph, ms);
      var seen, after := Seen(kind, glyph, s.latch.now), OnTitle(s, kind, glyph, ms);
      assert after.log == if Told(s, kind, glyph) == [] then s.log + [seen] else s.log + [seen] + Told(s, kind, glyph);
      hide OnTitle, Stands, GoodLog, Settled, QuietReady, TimerFits;
      forall other | IsTold(other)
        ensures after.latch.lastKind == KindOf(other) <==> Stands(after.log, other)
      {
        StandsSnoc(s.log, seen, other);
        if Told(s, kind, glyph) != [] {
          StandsSnoc(s.log + [seen], Told(s, kind, glyph)[0], other);
        }
      }
    }
  }

  lemma {:induction false} MarkRemembers(s: State, mark: Mark, lastKind: LastKind)
    requires Remembers(s) && !s.latch.isDestroyed
    requires (mark.Emitted? && mark.signal == Ready && lastKind == WasReady)
      || (mark == WasReset && lastKind == NoKind)
      || (mark == WasResynced && lastKind == if s.latch.lastKind == WasWorking then NoKind else s.latch.lastKind)
    ensures forall kind :: IsTold(kind) ==> (lastKind == KindOf(kind) <==> Stands(s.log + [mark], kind))
  {
    hide Stands;
    forall kind | IsTold(kind)
      ensures lastKind == KindOf(kind) <==> Stands(s.log + [mark], kind)
    {
      StandsSnoc(s.log, mark, kind);
    }
  }

  lemma {:induction false} StepRemembers(s: State, event: Event, ms: nat)
    requires Inv(s, ms) && Remembers(s)
    ensures Remembers(Step(s, event, ms))
  {
    match event
    case Titling(kind, glyph) => TitleRemembers(s, kind, glyph, ms);
    case Passing(time) =>
      if !s.latch.isDestroyed && s.latch.timer.Some? && s.latch.timer.value.deadline <= s.latch.now + time {
        MarkRemembers(s, Emitted(Ready, s.latch.timer.value.glyph, s.latch.timer.value.deadline), WasReady);
      }
    case Resyncing =>
      if !s.latch.isDestroyed {
        MarkRemembers(s, WasResynced, if s.latch.lastKind == WasWorking then NoKind else s.latch.lastKind);
      }
    case Resetting =>
      if !s.latch.isDestroyed {
        MarkRemembers(s, WasReset, NoKind);
      }
    case Destroying =>
    hide OnTitle, Stands, GoodLog, SpinnerSince, Settled, QuietReady, TimerFits;
  }

  lemma {:induction false} NothingStands()
    ensures Remembers(FRESH)
  {
  }

  // ---------------------------------------------------------------- every run

  predicate FollowedBy(log: seq<Mark>, j: nat, next: Mark) {
    j + 1 < |log| && log[j + 1] == next
  }

  /** A title whose kind is told at once is followed by its signal iff that kind did not stand already. */
  ghost predicate Answered(log: seq<Mark>, j: nat)
    requires j < |log|
  {
    && (log[j].Seen? && IsTold(log[j].kind) ==>
      (FollowedBy(log, j, Emitted(log[j].kind, log[j].glyph, log[j].at)) <==> !Stands(log[..j], log[j].kind)))
    && (log[j].Emitted? && log[j].signal != Ready ==>
      j > 0 && log[j - 1] == Seen(log[j].signal, log[j].glyph, log[j].at) && IsTold(log[j].signal))
  }

  ghost predicate AllAnswered(log: seq<Mark>) {
    forall j :: 0 <= j < |log| ==> Answered(log, j)
  }

  lemma {:induction false} AnsweredOn(log: seq<Mark>, more: seq<Mark>, j: nat)
    requires j < |log| && Answered(log, j) && (more != [] ==> !more[0].Emitted? || more[0].signal == Ready)
    ensures Answered(log + more, j)
  {
    var all := log + more;
    assert all[j] == log[j] && all[..j] == log[..j] && (j > 0 ==> all[j - 1] == log[j - 1]);
    hide Stands;
    assert j + 1 < |log| ==> all[j + 1] == log[j + 1];
  }

  lemma {:induction false} TitleAnswers(s: State, kind: TitleKind, glyph: int, ms: nat)
    requires Remembers(s) && AllAnswered(s.log)
    ensures AllAnswered(OnTitle(s, kind, glyph, ms).log)
  {
    if !s.latch.isDestroyed {
      TitleLogs(s, kind, glyph, ms);
      hide OnTitle, Stands;
      var more := [Seen(kind, glyph, s.latch.now)] + Told(s, kind, glyph);
      var all := s.log + more;
      assert all[|s.log|] == more[0] && all[..|s.log|] == s.log;
      assert |more| > 1 ==> all[|s.log| + 1] == more[1];
      forall j | 0 <= j < |all|
        ensures Answered(all, j)
      {
        if j < |s.log| {
          AnsweredOn(s.log, more, j);
        }
      }
    }
  }

  lemma {:induction false} MarkAnswers(log: seq<Mark>, mark: Mark)
    requires AllAnswered(log) && !mark.Seen? && (mark.Emitted? ==> mark.signal == Ready)
    ensures AllAnswered(log + [mark])
  {
    var all := log + [mark];
    assert all[|log|] == mark;
    forall j | 0 <= j < |all|
      ensures Answered(all, j)
    {
      if j < |log| {
        AnsweredOn(log, [mark], j);
      }
    }
  }

  lemma {:induction false} StepAnswers(s: State, event: Event, ms: nat)
    requires Remembers(s) && AllAnswered(s.log)
    ensures AllAnswered(Step(s, event, ms).log)
  {
    match event
    case Titling(kind, glyph) => TitleAnswers(s, kind, glyph, ms);
    case Passing(time) =>
      if s.latch.timer.Some? {
        MarkAnswers(s.log, Emitted(Ready, s.latch.timer.value.glyph, s.latch.timer.value.deadline));
      }
    case Resyncing => MarkAnswers(s.log, WasResynced);
    case Resetting => MarkAnswers(s.log, WasReset);
    case Destroying =>
    hide OnTitle, AllAnswered, Stands;
  }

  lemma {:induction false} RunAnswers(events: seq<Event>, ms: nat)
    ensures Remembers(Run(events, ms)) && AllAnswered(Run(events, ms).log)
  {
    hide Step, Answered, Remembers;
    if events == [] {
      NothingStands();
    } else {
      var before, last := Run(events[..|events| - 1], ms), events[|events| - 1];
      RunAnswers(events[..|events| - 1], ms);
      RunKeepsInv(events[..|events| - 1], ms);
      StepRemembers(before, last, ms);
      StepAnswers(before, last, ms);
    }
  }

  /**
   In every run a working, awaiting-input or unknown title is followed at once by its signal iff that kind did not
   stand already, and each such signal comes right after its title.
   */
  lemma {:induction false} TitleIsToldIff(events: seq<Event>, ms: nat, j: nat)
    requires j < |Run(events, ms).log|
    ensures
      var log := Run(events, ms).log;
      && (log[j].Seen? && IsTold(log[j].kind) ==>
        (FollowedBy(log, j, Emitted(log[j].kind, log[j].glyph, log[j].at)) <==> !Stands(log[..j], log[j].kind)))
      && (log[j].Emitted? && log[j].signal != Ready ==>
        j > 0 && log[j - 1] == Seen(log[j].signal, log[j].glyph, log[j].at) && IsTold(log[j].signal))
  {
    RunAnswers(events, ms);
    assert Answered(Run(events, ms).log, j);
  }

  // ---------------------------------------------------------------- the glyph last shown

  /** The glyph of the last title since the last reset that was not to be ignored. */
  function LastShown(log: seq<Mark>): Option<int> {
    if log == [] then None
    else
      var last := log[|log| - 1];
      if last.WasReset? then None
      else if last.Seen? && last.kind != Ignore then Some(last.glyph)
      else LastShown(log[..|log| - 1])
  }

  lemma {:induction false} ShownSnoc(log: seq<Mark>, mark: Mark)
    ensures LastShown(log + [mark]) ==
      if mark.WasReset? then None else if mark.Seen? && mark.kind != Ignore then Some(mark.glyph) else LastShown(log)
  {
    Snoc(log, mark);
  }

  lemma {:induction false} TitleShows(s: State, kind: TitleKind, glyph: int, ms: nat)
    requires !s.latch.isDestroyed && s.latch.lastChar == LastShown(s.log)
    ensures OnTitle(s, kind, glyph, ms).latch.lastChar == LastShown(OnTitle(s, kind, glyph, ms).log)
  {
    TitleLogs(s, kind, glyph, ms);
    var seen, after := Seen(kind, glyph, s.latch.now), OnTitle(s, kind, glyph, ms);
    assert after.latch.lastChar == if kind == Ignore then s.latch.lastChar else Some(glyph);
    hide OnTitle, LastShown;
    ShownSnoc(s.log, seen);
    if Told(s, kind, glyph) == [] {
      assert after.log == s.log + [seen];
    } else {
      ShownSnoc(s.log + [seen], Told(s, kind, glyph)[0]);
      assert after.log == s.log + [seen] + [Told(s, kind, glyph)[0]];
    }
  }

  lemma {:induction false} StepShows(s: State, event: Event, ms: nat)
    requires s.latch.isDestroyed || s.latch.lastChar == LastShown(s.log)
    ensures
      var after := Step(s, event, ms);
      after.latch.isDestroyed || after.latch.lastChar == LastShown(after.log)
  {
    match event
    case Titling(kind, glyph) =>
      if !s.latch.isDestroyed {
        TitleShows(s, kind, glyph, ms);
      }
    case Passing(time) =>
      if s.latch.timer.Some? {
        ShownSnoc(s.log, Emitted(Ready, s.latch.timer.value.glyph, s.latch.timer.value.deadline));
      }
    case Resyncing => ShownSnoc(s.log, WasResynced);
    case Resetting => ShownSnoc(s.log, WasReset);
    case Destroying =>
    hide OnTitle, LastShown;
  }

  /** In every run the latch holds that glyph, until it is destroyed. */
  lemma {:induction false} HoldsLastShown(events: seq<Event>, ms: nat)
    ensures Run(events, ms).latch.isDestroyed || Run(events, ms).latch.lastChar == LastShown(Run(events, ms).log)
  {
    hide Step, LastShown;
    if events == [] {
      NothingShown();
    } else {
      HoldsLastShown(events[..|events| - 1], ms);
      StepShows(Run(events[..|events| - 1], ms), events[|events| - 1], ms);
    }
  }

  lemma {:induction false} NothingShown()
    ensures LastShown([]) == None
  {
  }

  // ---------------------------------------------------------------- what titles are made of

  /** A code point beyond the first plane, written as its surrogate pair, is read back. */
  lemma {:induction false} PairIsCodePoint(c: int, rest: Text)
    requires 0x1_0000 <= c < 0x11_0000
    ensures
      var high, low := ((c - 0x1_0000) / 0x400 + 0xd800) as CodeUnit, ((c - 0x1_0000) % 0x400 + 0xdc00) as CodeUnit;
      CodePoint([high, low] + rest) == c
  {
  }

  function Contexts(was: TitleContext, contexts: seq<TitleContext>): TitleContext {
    if contexts == [] then was else Merged(Contexts(was, contexts[..|contexts| - 1]), contexts[|contexts| - 1])
  }

  /** The context is what was said last, whatever came before and however often nothing was said since. */
  lemma {:induction false} LastSaidStands(was: TitleContext, contexts: seq<TitleContext>, i: nat)
    requires i < |contexts| && contexts[i].cwdBasename.Some?
    requires forall k :: i < k < |contexts| ==> contexts[k].cwdBasename.None?
    ensures Contexts(was, contexts) == contexts[i]
  {
    if i < |contexts| - 1 {
      LastSaidStands(was, contexts[..|contexts| - 1], i);
    }
  }
}
