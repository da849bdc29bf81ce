/**
 The server's replay log: a bounded ring of the replayable broadcasts, each with its sequence number.

 The laws relate the ring to the whole history of replayable broadcasts, which the log forgets.
 */
module ReplayLogModel {

  datatype Entry = Entry(seqNo: nat, ts: int, kind: string)

  datatype Log = Log(ring: seq<Entry>, lastSeq: nat, evictedUpTo: nat)

  datatype Limits = Limits(maxEntries: nat, maxAgeMs: int)

  /** The cursor a client asks with: a number, possibly fractional or negative, or not finite at all. */
  datatype Since = Finite(value: real) | NotFinite

  const EMPTY := Log([], 0, 0)

  predicate IsReplayable(kind: string) {
    kind in {"notify", "session-error", "post-turn-result"}
  }

  /** How many entries at the front are too old. */
  function StaleCount(ring: seq<Entry>, limits: Limits, now: int): (k: nat)
    ensures k <= |ring|
  {
    if ring != [] && now - ring[0].ts > limits.maxAgeMs then 1 + StaleCount(ring[1..], limits, now) else 0
  }

  function Drop(log: Log, k: nat): Log
    requires k <= |log.ring|
  {
    if k == 0 then log else log.(ring := log.ring[k..], evictedUpTo := log.ring[k - 1].seqNo)
  }

  /** Dropping `k` entries leaves the rest, and remembers the number of the last one dropped. */
  lemma {:induction false} Dropped(log: Log, k: nat)
    requires k <= |log.ring|
    ensures Drop(log, k) ==
      Log(log.ring[k..], log.lastSeq, if k == 0 then log.evictedUpTo else log.ring[k - 1].seqNo)
  {
  }

  function Excess(ring: seq<Entry>, limits: Limits): (k: nat)
    ensures k <= |ring|
  {
    if |ring| > limits.maxEntries then |ring| - limits.maxEntries else 0
  }

  function Evict(log: Log, limits: Limits, now: int): Log {
    var young := Drop(log, StaleCount(log.ring, limits, now));
    Drop(young, Excess(young.ring, limits))
  }

  function Stamp(log: Log, limits: Limits, kind: string, now: int): Log {
    var next := log.lastSeq + 1;
    var stamped := log.(lastSeq := next);
    if !IsReplayable(kind) then stamped
    else Evict(stamped.(ring := stamped.ring + [Entry(next, now, kind)]), limits, now)
  }

  function Above(entries: seq<Entry>, since: real): seq<Entry> {
    if entries == [] then []
    else
      var rest := Above(entries[..|entries| - 1], since);
      if entries[|entries| - 1].seqNo as real > since then rest + [entries[|entries| - 1]] else rest
  }

  datatype Answer = Answer(entries: seq<Entry>, evicted: bool)

  /** The answer read off an already evicted log. */
  function AnswerOf(log: Log, since: Since): Answer {
    if since.NotFinite? || since.value < 0.0 then Answer([], false)
    else Answer(Above(log.ring, since.value), since.value < log.evictedUpTo as real)
  }

  // ---------------------------------------------------------------- the ring and the history

  /** Sequence numbers rise through the history and stay within those given out. */
  ghost predicate Rising(history: seq<Entry>, lastSeq: nat) {
    && (forall i, j :: 0 <= i < j < |history| ==> history[i].seqNo < history[j].seqNo)
    && (forall i :: 0 <= i < |history| ==> 1 <= history[i].seqNo <= lastSeq)
  }

  /** The ring is the end of the history, and evictedUpTo the last number that was dropped. */
  ghost predicate Describes(log: Log, history: seq<Entry>) {
    && Rising(history, log.lastSeq)
    && |log.ring| <= |history|
    && var dropped := |history| - |log.ring|;
    && log.ring == history[dropped..]
    && log.evictedUpTo == (if dropped == 0 then 0 else history[dropped - 1].seqNo)
  }

  function HistoryAfter(history: seq<Entry>, log: Log, kind: string, now: int): seq<Entry> {
    if IsReplayable(kind) then history + [Entry(log.lastSeq + 1, now, kind)] else history
  }

  lemma {:induction false} DropDescribes(log: Log, k: nat, history: seq<Entry>)
    requires Describes(log, history) && k <= |log.ring|
    ensures Describes(Drop(log, k), history)
    ensures Drop(log, k).lastSeq == log.lastSeq && |Drop(log, k).ring| == |log.ring| - k
  {
    if k > 0 {
      var dropped := |history| - |log.ring|;
      assert log.ring[k..] == history[dropped + k..];
      assert log.ring[k - 1] == history[dropped + k - 1];
    }
  }

  lemma {:induction false} EvictDescribes(log: Log, history: seq<Entry>, limits: Limits, now: int)
    requires Describes(log, history)
    ensures Describes(Evict(log, limits, now), history)
    ensures |Evict(log, limits, now).ring| <= limits.maxEntries
    ensures Evict(log, limits, now).lastSeq == log.lastSeq
  {
    hide Describes, Drop;
    var young := Drop(log, StaleCount(log.ring, limits, now));
    DropDescribes(log, StaleCount(log.ring, limits, now), history);
    DropDescribes(young, Excess(young.ring, limits), history);
  }

  lemma {:induction false} StampDescribes(log: Log, history: seq<Entry>, limits: Limits, kind: string, now: int)
    requires Describes(log, history) && |log.ring| <= limits.maxEntries
    ensures Describes(Stamp(log, limits, kind, now), HistoryAfter(history, log, kind, now))
    ensures |Stamp(log, limits, kind, now).ring| <= limits.maxEntries
    ensures Stamp(log, limits, kind, now).lastSeq == log.lastSeq + 1
  {
    hide IsReplayable, Describes, Evict;
    var stamped := log.(lastSeq := log.lastSeq + 1);
    if IsReplayable(kind) {
      var entry := Entry(log.lastSeq + 1, now, kind);
      PushDescribes(log, history, entry);
      EvictDescribes(stamped.(ring := stamped.ring + [entry]), history + [entry], limits, now);
    } else {
      CountDescribes(log, history);
    }
  }

  lemma {:induction false} CountDescribes(log: Log, history: seq<Entry>)
    requires Describes(log, history)
    ensures Describes(log.(lastSeq := log.lastSeq + 1), history)
  {
  }

  lemma {:induction false} PushDescribes(log: Log, history: seq<Entry>, entry: Entry)
    requires Describes(log, history) && entry.seqNo == log.lastSeq + 1
    ensures Describes(Log(log.ring + [entry], log.lastSeq + 1, log.evictedUpTo), history + [entry])
  {
    assert log.ring + [entry] == (history + [entry])[|history| - |log.ring|..];
  }

  lemma {:induction false} AboveExactly(entries: seq<Entry>, since: real, entry: Entry)
    ensures entry in Above(entries, since) <==> entry in entries && entry.seqNo as real > since
  {
    if entries != [] {
      AboveExactly(entries[..|entries| - 1], since, entry);
      assert entries == entries[..|entries| - 1] + [entries[|entries| - 1]];
    }
  }

  lemma {:induction false} AboveRises(entries: seq<Entry>, since: real, lastSeq: nat)
    requires Rising(entries, lastSeq)
    ensures Rising(Above(entries, since), lastSeq)
    ensures entries != [] ==> forall i :: 0 <= i < |Above(entries, since)| ==>
      Above(entries, since)[i].seqNo <= entries[|entries| - 1].seqNo
  {
    if entries != [] {
      var init, last := entries[..|entries| - 1], entries[|entries| - 1];
      AboveRises(init, since, lastSeq);
      var kept := Above(init, since);
      assert init == [] ==> kept == [];
      assert init != [] ==> init[|init| - 1].seqNo < last.seqNo;
      assert forall i :: 0 <= i < |kept| ==> kept[i].seqNo < last.seqNo;
      hide Above;
      if last.seqNo as real > since {
        RisingSnoc(kept, last, lastSeq);
      }
    }
  }

  lemma {:induction false} RisingSnoc(history: seq<Entry>, last: Entry, lastSeq: nat)
    requires Rising(history, lastSeq) && 1 <= last.seqNo <= lastSeq
    requires forall i :: 0 <= i < |history| ==> history[i].seqNo < last.seqNo
    ensures Rising(history + [last], lastSeq)
  {
  }

  lemma {:induction false} AboveConcat(a: seq<Entry>, b: seq<Entry>, since: real)
    ensures Above(a + b, since) == Above(a, since) + Above(b, since)
  {
    if b == [] {
      assert a + b == a;
    } else {
      assert (a + b)[..|a + b| - 1] == a + b[..|b| - 1];
      AboveConcat(a, b[..|b| - 1], since);
    }
  }

  lemma {:induction false} NoneAbove(entries: seq<Entry>, since: real)
    requires forall i :: 0 <= i < |entries| ==> entries[i].seqNo as real <= since
    ensures Above(entries, since) == []
  {
    if entries != [] {
      NoneAbove(entries[..|entries| - 1], since);
    }
  }

  /**
   For a cursor of at least zero the answer is, in order, the replayable messages above it that are
   still held, and `evicted` says exactly whether one above it was dropped.
   */
  lemma {:induction false} AnswerIsExact(log: Log, history: seq<Entry>, since: real)
    requires Describes(log, history) && since >= 0.0
    ensures
      var answer := AnswerOf(log, Finite(since));
      var dropped := |history| - |log.ring|;
      && answer.entries == Above(history[dropped..], since)
      && (answer.evicted <==> exists i :: 0 <= i < dropped && history[i].seqNo as real > since)
      && (!answer.evicted ==> answer.entries == Above(history, since))
  {
    hide Above, Rising;
    DroppedAbove(log, history, since);
    if !AnswerOf(log, Finite(since)).evicted {
      HeldIsAll(history, |history| - |log.ring|, since);
    }
  }

  lemma {:induction false} HeldIsAll(history: seq<Entry>, dropped: nat, since: real)
    requires dropped <= |history| && forall i :: 0 <= i < dropped ==> history[i].seqNo as real <= since
    ensures Above(history[dropped..], since) == Above(history, since)
  {
    hide Above;
    var gone, held := history[..dropped], history[dropped..];
    NoneAbove(gone, since);
    AboveConcat(gone, held, since);
    assert gone + held == history;
  }

  /** Something above the cursor was dropped iff the cursor lies below the last number dropped. */
  lemma {:induction false} DroppedAbove(log: Log, history: seq<Entry>, since: real)
    requires Describes(log, history) && since >= 0.0
    ensures
      var dropped := |history| - |log.ring|;
      since < log.evictedUpTo as real <==> exists i :: 0 <= i < dropped && history[i].seqNo as real > since
  {
    var dropped := |history| - |log.ring|;
    if dropped > 0 {
      assert forall i :: 0 <= i < dropped ==> history[i].seqNo <= history[dropped - 1].seqNo;
    }
  }

  // ---------------------------------------------------------------- age

  lemma {:induction false} StaleCountCuts(ring: seq<Entry>, limits: Limits, now: int)
    requires forall i, j :: 0 <= i < j < |ring| ==> ring[i].ts <= ring[j].ts
    ensures var k := StaleCount(ring, limits, now);
      forall i :: 0 <= i < |ring| ==> (now - ring[i].ts > limits.maxAgeMs <==> i < k)
  {
    if ring != [] && now - ring[0].ts > limits.maxAgeMs {
      StaleCountCuts(ring[1..], limits, now);
      assert forall i :: 1 <= i < |ring| ==> ring[i] == ring[1..][i - 1];
    }
  }

  lemma {:induction false} YoungRing(ring: seq<Entry>, limits: Limits, now: int)
    requires forall i, j :: 0 <= i < j < |ring| ==> ring[i].ts <= ring[j].ts
    ensures forall e :: e in ring[StaleCount(ring, limits, now)..] ==> now - e.ts <= limits.maxAgeMs
  {
    StaleCountCuts(ring, limits, now);
  }

  lemma {:induction false} RingAges(log: Log, history: seq<Entry>)
    requires Describes(log, history)
    requires forall i, j :: 0 <= i < j < |history| ==> history[i].ts <= history[j].ts
    ensures forall i, j :: 0 <= i < j < |log.ring| ==> log.ring[i].ts <= log.ring[j].ts
  {
    var dropped := |history| - |log.ring|;
    forall i, j | 0 <= i < j < |log.ring|
      ensures log.ring[i].ts <= log.ring[j].ts
    {
      assert log.ring[i] == history[dropped + i] && log.ring[j] == history[dropped + j];
    }
  }

  /** With a clock that never goes back, nothing an eviction keeps is older than the limit. */
  lemma {:induction false} EvictKeepsYoung(log: Log, history: seq<Entry>, limits: Limits, now: int)
    requires Describes(log, history)
    requires forall i, j :: 0 <= i < j < |history| ==> history[i].ts <= history[j].ts
    ensures forall e :: e in Evict(log, limits, now).ring ==> now - e.ts <= limits.maxAgeMs
  {
    RingAges(log, history);
    YoungRing(log.ring, limits, now);
    hide StaleCount, Describes;
  }
}
