/**
 The terminal write scheduler and its sinks, updated in place.

 A sink keeps its queue with a read cursor and compacts it now and then; the model's queue is what
 the cursor has not passed. Calls into the terminal are recorded in `log`. An action's callback and
 the terminal's write do not call back into the scheduler here.
 */
module RenderScheduler {
  import opened SchedulerModel

  const COMPACT_THRESHOLD: nat := 64

  class TerminalSink {
    var pending: seq<Entry>
    var readIdx: nat
    var inFlight: bool
    var dirty: bool
    var live: bool
    var log: seq<Out>
    ghost var accepted: seq<Entry>
    const id: string

    ghost predicate Valid()
      reads this
    {
      readIdx <= |pending|
    }

    ghost function Value(): Sink
      requires Valid()
      reads this
    {
      Sink(pending[readIdx..], inFlight, dirty, accepted, log)
    }

    constructor (id: string)
      ensures Valid() && live && Value() == NEW_SINK && this.id == id
    {
      this.id := id;
      pending, readIdx, inFlight, dirty, live, log, accepted := [], 0, false, false, true, [], [];
    }

    method ClearWhenDrained()
      requires Valid()
      modifies this`pending, this`readIdx, this`dirty
      ensures Valid()
      ensures Value() == old(Value()).(dirty := if old(Value()).unread == [] then false else old(dirty))
      ensures readIdx < |pending| ==> pending == old(pending) && readIdx == old(readIdx)
    {
      if readIdx < |pending| {
        return;
      }
      pending, readIdx, dirty := [], 0, false;
    }

    method Enqueue(entry: Entry)
      requires Valid()
      modifies this
      ensures Valid() && live == old(live)
      ensures Value() == old(Value()).(
        unread := old(Value()).unread + [entry], dirty := true, accepted := old(accepted) + [entry])
    {
      pending, dirty, accepted := pending + [entry], true, accepted + [entry];
    }

    /** Reads the queue up to the frame's limits: runs leading actions, collects slices of text. */
    method TakeWrites(maxChunk: nat) returns (writes: seq<string>, ghost ran: seq<nat>)
      requires Valid()
      modifies this`pending, this`readIdx, this`log
      ensures Valid()
      ensures Take(old(Value()).unread, 0, maxChunk) == Taken(writes, ran, Value().unread)
      ensures log == old(log) + RanAll(ran)
    {
      hide Take, Slices;
      var consumed: nat := 0;
      writes, ran := [], [];
      assert log == log + RanAll([]);
      while readIdx < |pending|
        invariant readIdx <= |pending|
        invariant Take(old(Value()).unread, 0, maxChunk) == Onto(writes, ran, Take(pending[readIdx..], consumed, maxChunk))
        invariant log == old(log) + RanAll(ran)
        decreases |pending| - readIdx
      {
        TakeOne(writes, ran, pending[readIdx..], consumed, maxChunk);
        assert pending[readIdx..][1..] == pending[readIdx + 1..];
        match pending[readIdx] {
          case Action(id) =>
            if consumed > 0 {
              break;
            }
            readIdx := readIdx + 1;
            log := log + [Ran(id)];
            assert RanAll(ran + [id]) == RanAll(ran) + [Ran(id)];
            ran := ran + [id];
          case Text(next) =>
            if consumed + |next| <= maxChunk {
              writes := AppendWriteSlices(writes, next);
              consumed := consumed + |next|;
              readIdx := readIdx + 1;
            } else {
              if consumed == 0 {
                writes := AppendWriteSlices(writes, next[..maxChunk]);
                pending := pending[readIdx := Text(next[maxChunk..])];
              }
              break;
            }
        }
      }
      TakeNothing(writes, ran, consumed, maxChunk);
    }

    method Service(maxChunk: nat)
      requires Valid()
      modifies this
      ensures Valid() && live == old(live)
      ensures Value() == SchedulerModel.Service(old(Value()), maxChunk)
    {
      var writes, ran := TakeWrites(maxChunk);
      ClearWhenDrained();
      if writes == [] {
        return;
      }
      if readIdx < |pending| && readIdx >= COMPACT_THRESHOLD {
        pending := pending[readIdx..];
        readIdx := 0;
      }
      inFlight := true;
      log := log + [Wrote(writes)];
    }

    method OnDrained() returns (hasMore: bool)
      requires Valid()
      modifies this
      ensures Valid() && live == old(live)
      ensures Value() == if live then DrainSink(old(Value())) else old(Value())
      ensures hasMore <==> live && old(Value()).unread != []
    {
      if !live {
        return false;
      }
      inFlight := false;
      log := log + [Drained];
      hasMore := readIdx < |pending|;
      if hasMore {
        dirty := true;
      }
    }
  }

  /** What was taken already, followed by what is taken from here on. */
  function Onto(writes: seq<string>, ran: seq<nat>, later: Taken): Taken {
    Taken(writes + later.writes, ran + later.ran, later.rest)
  }

  lemma {:induction false} TakeNothing(writes: seq<string>, ran: seq<nat>, consumed: nat, maxChunk: nat)
    ensures forall rest :: Onto(writes, ran, Taken([], [], rest)) == Taken(writes, ran, rest)
    ensures Take([], consumed, maxChunk) == Taken([], [], [])
  {
  }

  /** What one entry at the front of the queue adds. */
  lemma {:induction false} TakeOne(writes: seq<string>, ran: seq<nat>, unread: seq<Entry>, consumed: nat, maxChunk: nat)
    requires unread != []
    ensures Onto(writes, ran, Take(unread, consumed, maxChunk)) ==
      match unread[0]
      case Action(id) =>
        if consumed > 0 then Taken(writes, ran, unread)
        else Onto(writes, ran + [id], Take(unread[1..], consumed, maxChunk))
      case Text(data) =>
        if consumed + |data| <= maxChunk then Onto(writes + Slices(data), ran, Take(unread[1..], consumed + |data|, maxChunk))
        else if consumed == 0 then Taken(writes + Slices(data[..maxChunk]), ran, [Text(data[maxChunk..])] + unread[1..])
        else Taken(writes, ran, unread)
  {
    hide Slices;
    match unread[0]
    case Action(id) =>
      var later := Take(unread[1..], consumed, maxChunk);
      assert ran + ([id] + later.ran) == ran + [id] + later.ran;
    case Text(data) =>
      var later := Take(unread[1..], consumed + |data|, maxChunk);
      assert writes + (Slices(data) + later.writes) == writes + Slices(data) + later.writes;
      assert ran + [] == ran;
  }

  method AppendWriteSlices(writes: seq<string>, entry: string) returns (extended: seq<string>)
    ensures extended == writes + Slices(entry)
  {
    if |entry| <= WRITE_SLICE {
      return writes + [entry];
    }
    extended := writes;
    var at := 0;
    assert entry[0..] == entry;
    while at < |entry|
      invariant at < |entry| ==> extended + Slices(entry[at..]) == writes + Slices(entry)
      invariant at >= |entry| ==> extended == writes + Slices(entry)
    {
      var end := if at + WRITE_SLICE <= |entry| then at + WRITE_SLICE else |entry|;
      assert at + WRITE_SLICE <= |entry| ==> entry[at..][..WRITE_SLICE] == entry[at..end];
      assert at + WRITE_SLICE <= |entry| ==> entry[at..][WRITE_SLICE..] == entry[end..];
      assert end == |entry| ==> entry[at..] == entry[at..end];
      extended := extended + [entry[at..end]];
      at := at + WRITE_SLICE;
    }
  }

  class Scheduler {
    const budget: nat
    const maxChunk: nat
    var sinks: map<string, TerminalSink>
    var order: seq<string>
    var rr: nat
    var isFrameArmed: bool
    ghost var known: set<TerminalSink>

    /** Every sink ever registered is known, and the live ones are those registered now. */
    ghost predicate Valid()
      reads this`sinks, this`known, known
    {
      && (forall s :: s in known ==> s.Valid() && (s.live ==> s.id in sinks && sinks[s.id] == s))
      && (forall id :: id in sinks ==> sinks[id] in known && sinks[id].live && sinks[id].id == id)
    }

    ghost function SinkValues(): (values: map<string, Sink>)
      requires Valid()
      reads this`sinks, this`known, known
      ensures values.Keys == sinks.Keys
    {
      map id | id in sinks :: sinks[id].Value()
    }

    ghost function Value(): Sched
      requires Valid()
      reads this, known
    {
      Sched(SinkValues(), order, rr, isFrameArmed)
    }

    constructor (budget: nat, maxChunk: nat)
      ensures Valid() && Value() == START && known == {}
      ensures this.budget == budget && this.maxChunk == maxChunk
    {
      this.budget, this.maxChunk := budget, maxChunk;
      sinks, order, rr, isFrameArmed, known := map[], [], 0, false, {};
    }

    method Register(id: string)
      requires Valid()
      modifies this
      ensures Valid() && known >= old(known) && fresh(known - old(known))
      ensures Value() == SchedulerModel.Register(old(Value()), id)
    {
      hide Valid, SinkValues, TerminalSink.Valid, TerminalSink.Value;
      if id in sinks {
        return;
      }
      var s := new TerminalSink(id);
      KeepSink(s);
      order := order + [id];
    }

    method KeepSink(s: TerminalSink)
      requires Valid() && s.id !in sinks && s !in known && s.Valid() && s.live
      modifies this`sinks, this`known
      ensures Valid() && known == old(known) + {s} && s.id in sinks
      ensures SinkValues() == old(SinkValues())[s.id := s.Value()]
    {
      hide TerminalSink.Value;
      sinks := sinks[s.id := s];
      known := known + {s};
    }

    method RemoveFromOrder(id: string)
      modifies this`order, this`rr
      ensures order == WithoutId(old(order), id)
      ensures rr == if old(rr) >= |order| then 0 else old(rr)
    {
      var at := IndexOf(order, id);
      if at < |order| {
        order := order[..at] + order[at + 1..];
      }
      if rr >= |order| {
        rr := 0;
      }
    }

    method ForgetSink(id: string)
      requires Valid() && id in sinks
      modifies this`sinks, sinks[id]
      ensures Valid() && SinkValues() == old(SinkValues()) - {id}
    {
      sinks[id].live := false;
      sinks := sinks - {id};
    }

    method Unregister(id: string)
      requires Valid()
      modifies this, if id in sinks then {sinks[id]} else {}
      ensures Valid() && known == old(known)
      ensures Value() == SchedulerModel.Unregister(old(Value()), id)
    {
      hide WithoutId, TerminalSink.Value, Valid, SinkValues;
      if id !in sinks {
        return;
      }
      ForgetSink(id);
      RemoveFromOrder(id);
    }

    method EnqueueEntry(id: string, entry: Entry)
      requires Valid()
      modifies this, if id in sinks then {sinks[id]} else {}
      ensures Valid() && known == old(known)
      ensures Value() == SchedulerModel.Enqueue(old(Value()), id, entry)
    {
      if id !in sinks || entry == Text("") {
        return;
      }
      hide SinkValues, TerminalSink.Value, Valid;
      EnqueueTo(id, entry);
      SetFrame(true);
    }

    method EnqueueTo(id: string, entry: Entry)
      requires Valid() && id in sinks
      modifies sinks[id]
      ensures Valid()
      ensures
        var was := old(SinkValues())[id];
        SinkValues() == old(SinkValues())[id := was.(unread := was.unread + [entry], dirty := true, accepted := was.accepted + [entry])]
    {
      sinks[id].Enqueue(entry);
    }

    method AnyServiceableNow() returns (any: bool)
      requires Valid()
      ensures any == AnyServiceable(Value().sinks)
    {
      var todo := sinks.Keys;
      any := false;
      while todo != {}
        invariant todo <= sinks.Keys
        invariant forall id :: id in sinks && id !in todo ==> !Serviceable(sinks[id].Value())
        decreases todo
      {
        var id :| id in todo;
        var s := sinks[id];
        if s.dirty && !s.inFlight && s.readIdx < |s.pending| {
          assert Serviceable(Value().sinks[id]);
          return true;
        }
        todo := todo - {id};
      }
    }

    /** One place in the frame's scan. */
    method Serve(id: string) returns (isServed: bool)
      requires Valid()
      modifies this, known
      ensures Valid() && known == old(known)
      ensures isServed <==> IsServed(old(Value()), id)
      ensures Value() == ServeSink(old(Value()), id, maxChunk)
    {
      hide SchedulerModel.Service;
      if id !in sinks {
        return false;
      }
      var s := sinks[id];
      if !s.live || !s.dirty || s.inFlight || s.readIdx >= |s.pending| {
        return false;
      }
      ServiceKnown(s);
      isServed := true;
    }

    method ServiceKnown(s: TerminalSink)
      requires Valid() && s in known && s.live
      modifies s
      ensures Valid() && SinkValues() == old(SinkValues())[s.id := SchedulerModel.Service(old(s.Value()), maxChunk)]
    {
      hide SchedulerModel.Service;
      s.Service(maxChunk);
    }

    /** Scans the sinks once from the round-robin pointer, within the budget. */
    method ScanSinks()
      requires Valid()
      modifies this, known
      ensures Valid() && known == old(known)
      ensures Value() == Scan(old(Value()), 0, budget, maxChunk)
      ensures Value().order == old(order) && Value().rr == old(rr)
    {
      hide ServeSink, IsServed;
      var n := |order|;
      var serviced := 0;
      var k := 0;
      while k < n && serviced < budget
        invariant k <= n == |order| && serviced <= budget
        invariant Valid() && known == old(known) && Value().order == old(order) && Value().rr == old(rr)
        invariant Scan(old(Value()), 0, budget, maxChunk) == Scan(Value(), k, budget - serviced, maxChunk)
        decreases n - k
      {
        var isServed := Serve(order[Around(rr, k, n)]);
        if isServed {
          serviced := serviced + 1;
        }
        k := k + 1;
      }
    }

    method AdvancePointer()
      requires Valid()
      modifies this`rr
      ensures Valid() && Value() == old(Value()).(rr := if |order| > 0 then NextPointer(old(rr), |order|) else old(rr))
    {
      if |order| > 0 {
        rr := NextPointer(rr, |order|);
      }
    }

    method SetFrame(isArmed: bool)
      requires Valid()
      modifies this`isFrameArmed
      ensures Valid() && Value() == old(Value()).(isFrameArmed := isArmed)
    {
      isFrameArmed := isArmed;
    }

    method Tick()
      requires Valid()
      modifies this, known
      ensures Valid() && known == old(known)
      ensures Value() == SchedulerModel.Tick(old(Value()), budget, maxChunk)
    {
      hide Scan, AnyServiceable, NextPointer, SinkValues, Valid;
      SetFrame(false);
      ScanSinks();
      AdvancePointer();
      var any := AnyServiceableNow();
      SetFrame(any);
    }

    /** The terminal has drained the last batch it was given by sink `s`, which may be gone by now. */
    method Drained(s: TerminalSink)
      requires Valid() && s in known
      modifies this, s
      ensures Valid() && known == old(known)
      ensures old(s.live) ==> s.id in old(sinks) && Value() == Drain(old(Value()), s.id)
      ensures !old(s.live) ==> Value() == old(Value())
    {
      hide SinkValues, TerminalSink.Value;
      var hasMore := SettleSink(s);
      if hasMore {
        SetFrame(true);
      }
    }

    method SettleSink(s: TerminalSink) returns (hasMore: bool)
      requires Valid() && s in known
      modifies s
      ensures Valid() && s.live == old(s.live)
      ensures s.live ==> s.id in sinks && SinkValues() == old(SinkValues())[s.id := DrainSink(old(SinkValues())[s.id])]
      ensures hasMore <==> s.live && old(SinkValues())[s.id].unread != []
      ensures !s.live ==> SinkValues() == old(SinkValues())
    {
      hide DrainSink;
      hasMore := s.OnDrained();
    }

    method Stop()
      requires Valid()
      modifies this`isFrameArmed
      ensures Valid() && Value() == old(Value()).(isFrameArmed := false)
    {
      SetFrame(false);
    }
  }
}
