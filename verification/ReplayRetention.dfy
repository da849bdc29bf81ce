/**
 What the replay log keeps: in every run exactly the newest replayable broadcasts that are within the size and
 were never found too old, and it numbers them by their place among all broadcasts.
 */
module ReplayRetention {
  import opened ReplayLogModel

  /** A call of the log, at a time: a broadcast to stamp, or a cursor to answer. */
  datatype Op = Stamping(kind: string, now: int) | Answering(since: Since, now: int)

  datatype State = State(log: Log, history: seq<Entry>)

  function Do(s: State, limits: Limits, op: Op): State {
    match op
    case Stamping(kind, now) => State(Stamp(s.log, limits, kind, now), HistoryAfter(s.history, s.log, kind, now))
    case Answering(_, now) => s.(log := Evict(s.log, limits, now))
  }

  function RunOps(limits: Limits, ops: seq<Op>): State {
    if ops == [] then State(EMPTY, []) else Do(RunOps(limits, ops[..|ops| - 1]), limits, ops[|ops| - 1])
  }

  /** The kinds of broadcast that are kept. */
  predicate IsKept(kind: string) {
    kind == "notify" || kind == "session-error" || kind == "post-turn-result"
  }

  /** Calls at which the log looks for what is too old: every answer, and every broadcast that it keeps. */
  predicate Sweeps(op: Op) {
    op.Answering? || IsKept(op.kind)
  }

  ghost predicate ClockGoesOn(ops: seq<Op>) {
    forall i, j :: 0 <= i < j < |ops| ==> ops[i].now <= ops[j].now
  }

  // ---------------------------------------------------------------- one eviction

  lemma {:induction false} StaleIff(ring: seq<Entry>, limits: Limits, now: int, i: nat)
    requires forall j, k :: 0 <= j < k < |ring| ==> ring[j].ts <= ring[k].ts
    requires i < |ring|
    ensures i < StaleCount(ring, limits, now) <==> now - ring[i].ts > limits.maxAgeMs
  {
    StaleCountCuts(ring, limits, now);
  }

  /**
   With times that never go back, what an eviction leaves is the end of the ring, and an entry stays iff it is
   not too old and fewer than the limit follow it.
   */
  lemma {:induction false} EvictKeepsExactly(log: Log, limits: Limits, now: int, i: nat)
    requires forall j, k :: 0 <= j < k < |log.ring| ==> log.ring[j].ts <= log.ring[k].ts
    requires i < |log.ring|
    ensures
      var kept := Evict(log, limits, now).ring;
      && |kept| <= |log.ring| && kept == log.ring[|log.ring| - |kept|..]
      && (|log.ring| - i <= |kept| <==> now - log.ring[i].ts <= limits.maxAgeMs && |log.ring| - i <= limits.maxEntries)
  {
    StaleIff(log.ring, limits, now, i);
    var k := StaleCount(log.ring, limits, now);
    Dropped(log, k);
    Dropped(Drop(log, k), Excess(Drop(log, k).ring, limits));
    hide StaleCount, Drop;
  }

  // ---------------------------------------------------------------- every run

  /** No sweep of the run found an entry of this age too old. */
  ghost predicate NeverTooOld(limits: Limits, ops: seq<Op>, ts: int) {
    forall j :: 0 <= j < |ops| && Sweeps(ops[j]) ==> ops[j].now - ts <= limits.maxAgeMs
  }

  ghost predicate TimesRise(entries: seq<Entry>) {
    forall i, j :: 0 <= i < j < |entries| ==> entries[i].ts <= entries[j].ts
  }

  /** An entry is held, counted from the end of the history, iff it is near enough to the end and was never too old. */
  ghost predicate HoldsExactly(limits: Limits, ops: seq<Op>, history: seq<Entry>, held: nat) {
    forall i :: 0 <= i < |history| ==>
      (|history| - i <= held <==> |history| - i <= limits.maxEntries && NeverTooOld(limits, ops, history[i].ts))
  }

  lemma {:induction false} SweepSnoc(limits: Limits, ops: seq<Op>, op: Op, ts: int)
    ensures NeverTooOld(limits, ops + [op], ts) <==>
      NeverTooOld(limits, ops, ts) && (Sweeps(op) ==> op.now - ts <= limits.maxAgeMs)
  {
    hide Sweeps;
    var all := ops + [op];
    assert all[|ops|] == op;
    assert forall j :: 0 <= j < |ops| ==> all[j] == ops[j];
  }

  /** One eviction, seen from the history. */
  lemma {:induction false} EvictFromHistory(log: Log, history: seq<Entry>, limits: Limits, now: int, i: nat)
    requires Describes(log, history) && TimesRise(history) && i < |history|
    ensures |history| - i <= |Evict(log, limits, now).ring| <==>
      |history| - i <= |log.ring| && now - history[i].ts <= limits.maxAgeMs && |history| - i <= limits.maxEntries
  {
    var dropped := |history| - |log.ring|;
    forall j, k | 0 <= j < k < |log.ring|
      ensures log.ring[j].ts <= log.ring[k].ts
    {
      assert log.ring[j] == history[dropped + j] && log.ring[k] == history[dropped + k];
    }
    if i >= dropped {
      assert log.ring[i - dropped] == history[i];
      EvictKeepsExactly(log, limits, now, i - dropped);
    } else {
      EvictDropsOnly(log, limits, now);
    }
  }

  lemma {:induction false} EvictDropsOnly(log: Log, limits: Limits, now: int)
    ensures |Evict(log, limits, now).ring| <= |log.ring|
  {
  }

  lemma {:induction false} SweepHolds(limits: Limits, ops: seq<Op>, op: Op, log: Log, history: seq<Entry>)
    requires Describes(log, history) && TimesRise(history) && HoldsExactly(limits, ops, history, |log.ring|) && Sweeps(op)
    ensures HoldsExactly(limits, ops + [op], history, |Evict(log, limits, op.now).ring|)
  {
    var all, held := ops + [op], |Evict(log, limits, op.now).ring|;
    forall i | 0 <= i < |history|
      ensures |history| - i <= held <==> |history| - i <= limits.maxEntries && NeverTooOld(limits, all, history[i].ts)
    {
      SweepSnoc(limits, ops, op, history[i].ts);
      EvictFromHistory(log, history, limits, op.now, i);
    }
    assert HoldsExactly(limits, all, history, held);
  }

  /** A call that sweeps nothing changes nothing about what is held. */
  lemma {:induction false} NoSweepHolds(limits: Limits, ops: seq<Op>, op: Op, history: seq<Entry>, held: nat)
    requires HoldsExactly(limits, ops, history, held) && !Sweeps(op)
    ensures HoldsExactly(limits, ops + [op], history, held)
  {
    var all := ops + [op];
    forall i | 0 <= i < |history|
      ensures |history| - i <= held <==> |history| - i <= limits.maxEntries && NeverTooOld(limits, all, history[i].ts)
    {
      SweepSnoc(limits, ops, op, history[i].ts);
    }
    assert HoldsExactly(limits, all, history, held);
  }

  lemma {:induction false} YoungestIsYoung(limits: Limits, ops: seq<Op>, now: int)
    requires limits.maxAgeMs >= 0 && forall j :: 0 <= j < |ops| ==> ops[j].now <= now
    ensures NeverTooOld(limits, ops, now)
  {
  }

  lemma {:induction false} PushHolds(limits: Limits, ops: seq<Op>, op: Op, log: Log, history: seq<Entry>, entry: Entry)
    requires Describes(log, history) && TimesRise(history) && HoldsExactly(limits, ops, history, |log.ring|) && Sweeps(op)
    requires entry.seqNo == log.lastSeq + 1 && entry.ts == op.now
    requires (forall j :: 0 <= j < |ops| ==> ops[j].now <= op.now) && forall i :: 0 <= i < |history| ==> history[i].ts <= op.now
    ensures
      var pushed := Log(log.ring + [entry], log.lastSeq + 1, log.evictedUpTo);
      HoldsExactly(limits, ops + [op], history + [entry], |Evict(pushed, limits, op.now).ring|)
  {
    var pushed, all := Log(log.ring + [entry], log.lastSeq + 1, log.evictedUpTo), history + [entry];
    PushDescribes(log, history, entry);
    hide Evict, Describes;
    assert TimesRise(all);
    hide TimesRise;
    forall i | 0 <= i < |all|
      ensures |all| - i <= |Evict(pushed, limits, op.now).ring| <==>
        |all| - i <= limits.maxEntries && NeverTooOld(limits, ops + [op], all[i].ts)
    {
      SweepSnoc(limits, ops, op, all[i].ts);
      EvictFromHistory(pushed, all, limits, op.now, i);
      if i < |history| {
        assert all[i] == history[i];
      } else if limits.maxAgeMs >= 0 {
        YoungestIsYoung(limits, ops, op.now);
      }
    }
  }

  ghost predicate Retains(limits: Limits, ops: seq<Op>, s: State) {
    && Describes(s.log, s.history) && |s.log.ring| <= limits.maxEntries && TimesRise(s.history)
    && (forall i :: 0 <= i < |s.history| ==> ops != [] && s.history[i].ts <= ops[|ops| - 1].now)
    && HoldsExactly(limits, ops, s.history, |s.log.ring|)
  }

  lemma {:induction false} StampedIs(s: State, limits: Limits, kind: string, now: int)
    ensures
      var after, entry := Do(s, limits, Stamping(kind, now)), Entry(s.log.lastSeq + 1, now, kind);
      after == if IsKept(kind)
        then State(Evict(Log(s.log.ring + [entry], s.log.lastSeq + 1, s.log.evictedUpTo), limits, now), s.history + [entry])
        else State(s.log.(lastSeq := s.log.lastSeq + 1), s.history)
  {
    assert IsReplayable(kind) <==> IsKept(kind);
    hide IsReplayable, IsKept, Evict;
  }

  lemma {:induction false} StampRetains(limits: Limits, ops: seq<Op>, kind: string, now: int, s: State)
    requires Retains(limits, ops, s) && forall j :: 0 <= j < |ops| ==> ops[j].now <= now
    ensures Retains(limits, ops + [Stamping(kind, now)], Do(s, limits, Stamping(kind, now)))
  {
    var op, entry := Stamping(kind, now), Entry(s.log.lastSeq + 1, now, kind);
    var all := ops + [op];
    assert all[|ops|] == op;
    StampDescribes(s.log, s.history, limits, kind, now);
    StampedIs(s, limits, kind, now);
    assert Do(s, limits, op) == State(Stamp(s.log, limits, kind, now), HistoryAfter(s.history, s.log, kind, now));
    var after := Do(s, limits, op);
    hide Do, Stamp, HistoryAfter, Evict, Describes, HoldsExactly;
    if IsKept(kind) {
      PushHolds(limits, ops, op, s.log, s.history, entry);
      TimesRiseOn(s.history, entry);
      assert HoldsExactly(limits, all, after.history, |after.log.ring|);
    } else {
      NoSweepHolds(limits, ops, op, s.history, |s.log.ring|);
      assert HoldsExactly(limits, all, after.history, |after.log.ring|);
    }
    hide IsKept, TimesRise;
  }

  lemma {:induction false} TimesRiseOn(history: seq<Entry>, entry: Entry)
    requires TimesRise(history) && forall i :: 0 <= i < |history| ==> history[i].ts <= entry.ts
    ensures TimesRise(history + [entry])
    ensures forall i :: 0 <= i < |history + [entry]| ==> (history + [entry])[i].ts <= entry.ts
  {
  }

  lemma {:induction false} DoRetains(limits: Limits, ops: seq<Op>, op: Op, s: State)
    requires Retains(limits, ops, s) && ClockGoesOn(ops + [op])
    ensures Retains(limits, ops + [op], Do(s, limits, op))
  {
    var all := ops + [op];
    assert all[|ops|] == op;
    assert forall j :: 0 <= j < |ops| ==> all[j] == ops[j] && ops[j].now <= op.now;
    match op
    case Stamping(kind, now) => StampRetains(limits, ops, kind, now, s);
    case Answering(_, now) =>
      EvictDescribes(s.log, s.history, limits, now);
      SweepHolds(limits, ops, op, s.log, s.history);
    hide Describes, HoldsExactly, Evict, Stamp, HistoryAfter;
  }

  lemma {:induction false} RunRetains(limits: Limits, ops: seq<Op>)
    requires ClockGoesOn(ops)
    ensures Retains(limits, ops, RunOps(limits, ops))
  {
    hide Retains, Do;
    if ops == [] {
      StartRetains(limits);
    } else {
      var before, last := ops[..|ops| - 1], ops[|ops| - 1];
      RunRetains(limits, before);
      assert before + [last] == ops;
      DoRetains(limits, before, last, RunOps(limits, before));
    }
  }

  lemma {:induction false} StartRetains(limits: Limits)
    ensures Retains(limits, [], State(EMPTY, []))
  {
  }

  // ---------------------------------------------------------------- the history

  function StampCount(ops: seq<Op>): nat {
    if ops == [] then 0 else StampCount(ops[..|ops| - 1]) + (if ops[|ops| - 1].Stamping? then 1 else 0)
  }

  /** The broadcasts of the kept kinds, in order, each numbered by its place among all broadcasts. */
  function Kept(ops: seq<Op>): seq<Entry> {
    if ops == [] then []
    else
      var before, last := ops[..|ops| - 1], ops[|ops| - 1];
      Kept(before)
      + (if last.Stamping? && IsKept(last.kind) then [Entry(StampCount(ops), last.now, last.kind)] else [])
  }

  lemma {:induction false} HistoryIsKept(limits: Limits, ops: seq<Op>)
    ensures RunOps(limits, ops).history == Kept(ops) && RunOps(limits, ops).log.lastSeq == StampCount(ops)
  {
    if ops != [] {
      var before, last := RunOps(limits, ops[..|ops| - 1]), ops[|ops| - 1];
      HistoryIsKept(limits, ops[..|ops| - 1]);
      DoNumbers(before, limits, last);
      assert last.Stamping? ==> (IsReplayable(last.kind) <==> IsKept(last.kind));
      hide Do, IsReplayable, IsKept;
    }
  }

  lemma {:induction false} DoNumbers(s: State, limits: Limits, op: Op)
    ensures
      var after := Do(s, limits, op);
      && after.log.lastSeq == (if op.Stamping? then s.log.lastSeq + 1 else s.log.lastSeq)
      && after.history == if op.Stamping? && IsReplayable(op.kind)
        then s.history + [Entry(s.log.lastSeq + 1, op.now, op.kind)] else s.history
  {
    hide IsReplayable;
  }

  /**
   In every run in which the clock does not go back, the log holds the end of what it was given to keep, and each
   entry exactly while fewer than the limit have followed it and no sweep has found it too old.
   */
  lemma {:induction false} HeldIff(limits: Limits, ops: seq<Op>, i: nat)
    requires ClockGoesOn(ops) && i < |Kept(ops)|
    ensures
      var history, held := Kept(ops), RunOps(limits, ops).log.ring;
      && |held| <= |history| && held == history[|history| - |held|..]
      && (history[i] in held <==> |history| - i <= limits.maxEntries && NeverTooOld(limits, ops, history[i].ts))
  {
    RunRetains(limits, ops);
    HistoryIsKept(limits, ops);
    var history, held := Kept(ops), RunOps(limits, ops).log.ring;
    hide Kept, RunOps, TimesRise;
    EndHolds(history, held, i);
  }

  lemma {:induction false} EndHolds(history: seq<Entry>, held: seq<Entry>, i: nat)
    requires |held| <= |history| && held == history[|history| - |held|..] && i < |history|
    requires forall j, k :: 0 <= j < k < |history| ==> history[j].seqNo < history[k].seqNo
    ensures history[i] in held <==> |history| - i <= |held|
  {
    var dropped := |history| - |held|;
    if i >= dropped {
      assert held[i - dropped] == history[i];
    }
    forall k | 0 <= k < |held| && i < dropped
      ensures held[k] != history[i]
    {
      assert held[k] == history[dropped + k];
    }
  }
}
