/** The replay log, updated in place, with the history it forgets kept for the proofs. */
module ReplayLogs {
  import opened ReplayLogModel

  class ReplayLog {
    const limits: Limits
    var ring: seq<Entry>
    var lastSeq: nat
    var evictedUpTo: nat
    ghost var history: seq<Entry>

    ghost function Value(): Log
      reads this
    {
      Log(ring, lastSeq, evictedUpTo)
    }

    ghost predicate Valid()
      reads this
    {
      Describes(Value(), history) && |ring| <= limits.maxEntries
    }

    constructor (limits: Limits)
      ensures Valid() && Value() == EMPTY && history == [] && this.limits == limits
    {
      this.limits := limits;
      ring, lastSeq, evictedUpTo, history := [], 0, 0, [];
    }

    method EvictStale(now: int)
      modifies this`ring, this`evictedUpTo
      ensures Value() == Evict(old(Value()), limits, now)
    {
      hide Drop;
      ghost var dropped := 0;
      while ring != [] && now - ring[0].ts > limits.maxAgeMs
        invariant dropped <= |old(ring)| && ring == old(ring)[dropped..]
        invariant evictedUpTo == if dropped == 0 then old(evictedUpTo) else old(ring)[dropped - 1].seqNo
        invariant StaleCount(old(ring), limits, now) == dropped + StaleCount(ring, limits, now)
        decreases |ring|
      {
        evictedUpTo := ring[0].seqNo;
        ring := ring[1..];
        dropped := dropped + 1;
      }
      Dropped(old(Value()), dropped);
      label Young:
      ghost var excess := 0;
      while |ring| > limits.maxEntries
        invariant excess <= |old@Young(ring)| && ring == old@Young(ring)[excess..]
        invariant evictedUpTo == if excess == 0 then old@Young(evictedUpTo) else old@Young(ring)[excess - 1].seqNo
        invariant excess > 0 ==> |ring| >= limits.maxEntries
        decreases |ring|
      {
        evictedUpTo := ring[0].seqNo;
        ring := ring[1..];
        excess := excess + 1;
      }
      Dropped(old@Young(Value()), excess);
    }

    method Stamp(kind: string, now: int) returns (seqNo: nat)
      requires Valid()
      modifies this
      ensures Valid()
      ensures Value() == ReplayLogModel.Stamp(old(Value()), limits, kind, now)
      ensures history == HistoryAfter(old(history), old(Value()), kind, now)
      ensures seqNo == lastSeq == old(lastSeq) + 1
    {
      StampDescribes(Value(), history, limits, kind, now);
      hide Describes, Evict, IsReplayable;
      history := HistoryAfter(history, Value(), kind, now);
      lastSeq := lastSeq + 1;
      seqNo := lastSeq;
      if !IsReplayable(kind) {
        return;
      }
      ring := ring + [Entry(lastSeq, now, kind)];
      hide HistoryAfter;
      EvictStale(now);
    }

    method EntriesSince(since: Since, now: int) returns (answer: Answer)
      requires Valid()
      modifies this`ring, this`evictedUpTo
      ensures Valid()
      ensures Value() == Evict(old(Value()), limits, now)
      ensures answer == AnswerOf(Value(), since)
      ensures since.NotFinite? || since.value < 0.0 ==> answer == Answer([], false)
    {
      EvictDescribes(Value(), history, limits, now);
      EvictStale(now);
      hide Evict, Describes, Above;
      label Evicted:
      if since.NotFinite? || since.value < 0.0 {
        return Answer([], false);
      }
      var held, entries := ring, [];
      NoneToFilter(since.value);
      for i := 0 to |held|
        invariant unchanged@Evicted(this)
        invariant entries == Above(held[..i], since.value)
      {
        FilterNext(held, i, since.value);
        if held[i].seqNo as real > since.value {
          entries := entries + [held[i]];
        }
      }
      assert held[..|held|] == held;
      answer := Answer(entries, since.value < evictedUpTo as real);
    }
  }

  lemma {:induction false} NoneToFilter(since: real)
    ensures Above([], since) == []
  {
  }

  lemma {:induction false} FilterNext(entries: seq<Entry>, i: nat, since: real)
    requires i < |entries|
    ensures Above(entries[..i + 1], since)
      == Above(entries[..i], since) + (if entries[i].seqNo as real > since then [entries[i]] else [])
  {
    assert entries[..i + 1][..i] == entries[..i];
  }
}
